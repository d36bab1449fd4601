/** Intrusive circular doubly linked lists (s_task/s_list.c).

    Every queue of the task system is a ring of nodes. Nobody owns a ring: whoever holds a
    node edits the ring around it, and every edit is one primitive, `ToggleConnect`. The
    module first gives the primitive its meaning on two stretches of nodes, and then lifts
    it to heaps of rings: a `Shape` names, for each head node, the nodes that follow it
    around its ring.
  */
module Rings {
  import opened Seqs

  class Node {
    var next: Node
    var prev: Node

    constructor ()
      ensures IsRing([this])
    {
      next := this;
      prev := this;
    }

    /** s_list_init, on a node that already has storage. */
    method Init()
      modifies this
      ensures IsRing([this])
    {
      prev := this;
      next := this;
    }
  }

  ghost predicate Linked(a: Node, b: Node)
    reads a, b
  {
    a.next == b && b.prev == a
  }

  ghost function After(s: seq<Node>, i: nat): Node
    requires i + 1 < |s|
  {
    s[i + 1]
  }

  ghost function Last(s: seq<Node>): Node
    requires 0 < |s|
  {
    s[|s| - 1]
  }

  /** Neighbours in `s` are linked both ways; nothing is said about the two ends. */
  ghost predicate IsPath(s: seq<Node>)
    reads s
  {
    && 0 < |s|
    && forall i {:trigger After(s, i)} :: 0 <= i < |s| - 1 ==> Linked(s[i], After(s, i))
  }

  /** `s` lists one whole ring, starting at any of its nodes. */
  ghost predicate IsRing(s: seq<Node>)
    reads s
  {
    IsPath(s) && Distinct(s) && Linked(Last(s), s[0])
  }

  /** `p` and `q` are two rings without a common node. */
  ghost predicate Apart(p: seq<Node>, q: seq<Node>)
    reads p, q
  {
    IsRing(p) && IsRing(q) && Disjoint(p, q)
  }

  /** `p` and `q` are the two halves of one ring. */
  ghost predicate Crossed(p: seq<Node>, q: seq<Node>)
    reads p, q
  {
    && IsPath(p) && IsPath(q)
    && Distinct(p) && Distinct(q) && Disjoint(p, q)
    && Linked(Last(p), q[0]) && Linked(Last(q), p[0])
  }

  lemma CrossedIsRing(p: seq<Node>, q: seq<Node>)
    requires p != [] && q != []
    ensures Crossed(p, q) <==> IsRing(p + q)
  {
    var r := p + q;
    DistinctConcat(p, q);
    if Crossed(p, q) {
      forall i | 0 <= i < |r| - 1 ensures Linked(r[i], After(r, i)) {
        if i < |p| - 1 {
          assert After(r, i) == After(p, i);
        } else if i >= |p| {
          assert After(r, i) == After(q, i - |p|);
        }
      }
    }
    if IsRing(r) {
      forall i | 0 <= i < |p| - 1 ensures Linked(p[i], After(p, i)) {
        assert After(r, i) == After(p, i);
      }
      forall i | 0 <= i < |q| - 1 ensures Linked(q[i], After(q, i)) {
        assert After(r, i + |p|) == After(q, i);
      }
      assert After(r, |p| - 1) == q[0];
    }
  }

  /** A ring is a ring from wherever it is read. */
  lemma RingRotates(p: seq<Node>, q: seq<Node>)
    requires IsRing(p + q)
    ensures IsRing(q + p)
  {
    if p == [] || q == [] {
      assert q + p == p + q;
    } else {
      CrossedIsRing(p, q);
      CrossedIsRing(q, p);
    }
  }

  lemma KeepsLink(p: seq<Node>, q: seq<Node>, i: nat)
    requires Distinct(p) && Disjoint(p, q) && q != [] && i + 1 < |p|
    ensures p[i] != Last(p) && p[i] != Last(q)
    ensures After(p, i) != p[0] && After(p, i) != q[0]
  {
    assert p[i] in p && After(p, i) in p && q[0] in q && Last(q) in q;
  }

  /** s_list_toggle_connect: two rings become one, one ring becomes two, and a node toggled
      with itself changes nothing. `p` and `q` list nodes from `a` and from `b` on; `others`
      are any other rings of the heap. */
  method ToggleConnect(a: Node, b: Node, ghost p: seq<Node>, ghost q: seq<Node>, ghost others: set<seq<Node>>)
    requires p != [] && q != [] && p[0] == a && q[0] == b
    requires if a == b then IsRing(p) && p == q else Apart(p, q) || Crossed(p, q)
    requires forall r :: r in others ==> IsRing(r) && Disjoint(r, p) && Disjoint(r, q)
    modifies {a.prev, b.prev}`next, {a, b}`prev
    ensures a != b && old(Apart(p, q)) ==> Crossed(p, q) && IsRing(p + q)
    ensures a != b && old(Crossed(p, q)) ==> Apart(p, q)
    ensures a == b ==> forall n :: n in p ==> n.next == old(n.next) && n.prev == old(n.prev)
    ensures a == b ==> IsRing(p)
    ensures forall r :: r in others ==> IsRing(r)
    ensures a.prev == old(b.prev) && b.prev == old(a.prev)
    ensures old(a.prev).next == b && old(b.prev).next == a
  {
    assert a.prev == Last(p) || a.prev == Last(q);
    assert b.prev == Last(p) || b.prev == Last(q);
    var prevA := a.prev;
    var prevB := b.prev;
    prevA.next := b;
    prevB.next := a;
    a.prev := prevB;
    b.prev := prevA;
    if a != b {
      forall i | 0 <= i < |p| - 1 ensures Linked(p[i], After(p, i)) {
        KeepsLink(p, q, i);
        assert old(Linked(p[i], After(p, i)));
      }
      forall i | 0 <= i < |q| - 1 ensures Linked(q[i], After(q, i)) {
        KeepsLink(q, p, i);
        assert old(Linked(q[i], After(q, i)));
      }
      CrossedIsRing(p, q);
    }
    forall r | r in others ensures IsRing(r) {
      assert forall n :: n in r ==> n !in p && n !in q;
      assert p[0] in p && q[0] in q && Last(p) in p && Last(q) in q;
    }
  }

  /** Toggling the same pair a second time restores every link. */
  method ToggleTwice(a: Node, b: Node, ghost p: seq<Node>, ghost q: seq<Node>)
    requires p != [] && q != [] && p[0] == a && q[0] == b
    requires if a == b then IsRing(p) && p == q else Apart(p, q) || Crossed(p, q)
    modifies p, q
    ensures forall n: Node :: old(allocated(n)) ==> n.next == old(n.next) && n.prev == old(n.prev)
  {
    ToggleConnect(a, b, p, q, {});
    ToggleConnect(a, b, p, q, {});
  }

  // ----- heaps of rings

  /** A head node and, for each, the nodes that follow it around its ring. */
  type Shape = map<Node, seq<Node>>

  ghost function RingAt(g: Shape, h: Node): seq<Node>
    requires h in g
  {
    [h] + g[h]
  }

  /** The rings of `g` lie within `nodes` and no two of them share a node. */
  ghost predicate Spread(g: Shape, nodes: set<Node>) {
    && (forall h {:trigger RingAt(g, h)} :: h in g ==> forall n :: n in RingAt(g, h) ==> n in nodes)
    && (forall h, k {:trigger RingAt(g, h), RingAt(g, k)} ::
          h in g && k in g && h != k ==> Disjoint(RingAt(g, h), RingAt(g, k)))
  }

  /** The heap holds the rings of `g`. */
  ghost predicate Shaped(g: Shape, nodes: set<Node>)
    reads nodes
  {
    var spread := Spread(g, nodes);
    spread && (var rings := forall h {:trigger RingAt(g, h)} :: h in g ==> IsRing(RingAt(g, h)); rings)
  }

  /** The ring of `m` goes behind the ring of `h`. */
  ghost function Join(g: Shape, h: Node, m: Node): Shape
    requires h in g && m in g
  {
    (g - {m})[h := g[h] + [m] + g[m]]
  }

  /** `n` leaves the ring it follows a head in, and is alone. */
  ghost function Unlink(g: Shape, n: Node): Shape {
    (map h | h in g :: Without(g[h], n))[n := []]
  }

  lemma IsUnlink(g: Shape, g': Shape, x: Node)
    requires x in g' && g'[x] == []
    requires forall n :: n in g' && n != x ==> n in g && g'[n] == Without(g[n], x)
    requires forall n :: n in g && n != x ==> n in g'
    ensures g' == Unlink(g, x)
  {
  }

  lemma IsJoin(g: Shape, g': Shape, h: Node, m: Node)
    requires h in g && m in g && h != m
    requires h in g' && m !in g' && g'[h] == g[h] + [m] + g[m]
    requires forall n :: n in g' && n != h ==> n in g && g'[n] == g[n]
    requires forall n :: n in g && n != m ==> n in g'
    ensures g' == Join(g, h, m)
  {
  }

  ghost function OtherRings(g: Shape, h: Node, m: Node): set<seq<Node>> {
    set k | k in g && k != h && k != m :: RingAt(g, k)
  }

  /** s_list_attach */
  method Attach(h: Node, m: Node, ghost g: Shape, ghost nodes: set<Node>)
    requires Shaped(g, nodes) && h in g && m in g && h != m
    modifies nodes
    ensures Shaped(Join(g, h, m), nodes)
  {
    ghost var p, q := RingAt(g, h), RingAt(g, m);
    assert h in p && m in q && Last(p) in p && Last(q) in q;
    ToggleConnect(h, m, p, q, OtherRings(g, h, m));
    JoinShaped(g, h, m, nodes);
  }

  lemma JoinShaped(g: Shape, h: Node, m: Node, nodes: set<Node>)
    requires h in g && m in g && h != m
    requires IsRing(RingAt(g, h) + RingAt(g, m))
    requires forall r :: r in OtherRings(g, h, m) ==> IsRing(r)
    requires Spread(g, nodes)
    ensures Shaped(Join(g, h, m), nodes)
  {
    var g' := Join(g, h, m);
    assert RingAt(g', h) == RingAt(g, h) + RingAt(g, m);
    forall k | k in g' && k != h ensures RingAt(g', k) == RingAt(g, k) && IsRing(RingAt(g, k)) {
      assert RingAt(g, k) in OtherRings(g, h, m);
    }
  }

  /** s_list_detach */
  method Detach(n: Node, ghost g: Shape, ghost nodes: set<Node>)
    requires Shaped(g, nodes)
    requires n in g ==> g[n] == []
    requires exists h :: h in g && n in RingAt(g, h)
    modifies nodes
    ensures Shaped(Unlink(g, n), nodes)
  {
    ghost var h :| h in g && n in RingAt(g, h);
    ghost var before, after := CutRing(g, h, n);
    ghost var rest := if n == h then [n] else after + [h] + before;
    assert n.next == rest[0] && n.prev == Last(rest);
    assert forall k :: k in rest || k == n ==> k in RingAt(g, h);
    ToggleConnect(n, n.next, [n], rest, OtherRings(g, h, h));
    UnlinkShaped(g, h, before, n, after, nodes);
  }

  lemma UnlinkAlone(g: Shape, n: Node, nodes: set<Node>)
    requires Spread(g, nodes) && n in g && g[n] == []
    ensures Unlink(g, n) == g
  {
    forall h | h in g ensures Unlink(g, n)[h] == g[h] {
      assert n in RingAt(g, n);
      assert h != n ==> n !in RingAt(g, h);
    }
  }

  /** The ring of `h` read from `n` on: `n`, what follows it, `h`, and what comes before `n`. */
  lemma CutRing(g: Shape, h: Node, n: Node) returns (before: seq<Node>, after: seq<Node>)
    requires h in g && n in RingAt(g, h) && IsRing(RingAt(g, h))
    ensures n != h ==> g[h] == before + [n] + after && Crossed([n], after + [h] + before)
  {
    before, after := [], [];
    if n != h {
      var xs := g[h];
      var i :| 0 <= i < |xs| && xs[i] == n;
      before, after := xs[..i], xs[i + 1..];
      assert RingAt(g, h) == ([h] + before) + ([n] + after);
      RingRotates([h] + before, [n] + after);
      assert ([n] + after) + ([h] + before) == [n] + (after + [h] + before);
      CrossedIsRing([n], after + [h] + before);
    }
  }

  lemma UnlinkSpread(g: Shape, h: Node, before: seq<Node>, n: Node, after: seq<Node>, nodes: set<Node>)
    requires Spread(g, nodes) && h in g && n != h
    requires g[h] == before + [n] + after && n !in before && n !in after
    ensures Spread(Unlink(g, n), nodes) && n !in g
    ensures RingAt(Unlink(g, n), h) == [h] + before + after
    ensures forall k :: k in g && k != h ==> RingAt(Unlink(g, n), k) == RingAt(g, k)
  {
    var g' := Unlink(g, n);
    assert n in RingAt(g, h);
    WithoutAt(before, n, after);
    assert RingAt(g', h) == [h] + before + after;
    assert forall x :: x in RingAt(g', h) ==> x in RingAt(g, h) && x != n;
    assert RingAt(g', n) == [n];
    assert n in g ==> n in RingAt(g, n);
    forall k | k in g && k != h ensures RingAt(g', k) == RingAt(g, k) && n !in RingAt(g', k) {
      assert n !in RingAt(g, k);
    }
  }

  lemma UnlinkShaped(g: Shape, h: Node, before: seq<Node>, n: Node, after: seq<Node>, nodes: set<Node>)
    requires Spread(g, nodes) && h in g
    requires forall r :: r in OtherRings(g, h, h) ==> IsRing(r)
    requires if n == h then g[h] == [] && IsRing([n])
             else g[h] == before + [n] + after && Apart([n], after + [h] + before)
    ensures Shaped(Unlink(g, n), nodes)
  {
    forall k | k in g && k != h ensures IsRing(RingAt(g, k)) {
      assert RingAt(g, k) in OtherRings(g, h, h);
    }
    if n == h {
      UnlinkAlone(g, n, nodes);
      assert RingAt(g, n) == [n];
    } else {
      assert n !in before && n !in after by {
        assert n in [n];
        assert forall x :: x in before || x in after ==> x in after + [h] + before;
      }
      UnlinkSpread(g, h, before, n, after, nodes);
      assert IsRing([h] + before + after) by {
        assert after + ([h] + before) == after + [h] + before;
        RingRotates(after, [h] + before);
      }
      assert RingAt(Unlink(g, n), n) == [n];
    }
  }

  /** s_list_is_empty */
  method IsEmpty(h: Node, ghost g: Shape, ghost nodes: set<Node>) returns (empty: bool)
    requires Shaped(g, nodes) && h in g
    ensures empty <==> g[h] == []
  {
    assert h == RingAt(g, h)[0];
    assert g[h] != [] ==> After(RingAt(g, h), 0) == g[h][0];
    empty := h.next == h;
  }

  /** s_list_size */
  method Size(h: Node, ghost g: Shape, ghost nodes: set<Node>) returns (n: nat)
    requires Shaped(g, nodes) && h in g
    ensures n == |g[h]|
  {
    n := 0;
    ghost var r := RingAt(g, h);
    assert |r| > 1 ==> After(r, 0) == r[1];
    var next := h.next;
    while next != h
      invariant n <= |g[h]| && next == if n == |g[h]| then h else r[n + 1]
      decreases |g[h]| - n
    {
      assert n + 2 < |r| ==> After(r, n + 1) == r[n + 2];
      next := next.next;
      n := n + 1;
    }
  }

  /** A node that is alone and belongs to no ring of the heap so far. */
  lemma AddAlone(g: Shape, nodes: set<Node>, n: Node)
    requires Shaped(g, nodes) && n !in nodes && IsRing([n])
    ensures Shaped(g[n := []], nodes + {n})
  {
    var g' := g[n := []];
    assert RingAt(g', n) == [n];
    forall h | h in g ensures n != h && RingAt(g', h) == RingAt(g, h) && n !in RingAt(g, h) {
      assert h in RingAt(g, h);
    }
  }

  /** s_list_init on a node outside the heap of rings so far. */
  method InitAlone(n: Node, ghost g: Shape, ghost nodes: set<Node>)
    requires Shaped(g, nodes) && n !in nodes
    modifies n
    ensures Shaped(g[n := []], nodes + {n})
  {
    n.Init();
    AddAlone(g, nodes, n);
  }

  /** What the first two steps around a ring reach. */
  lemma FirstSteps(g: Shape, nodes: set<Node>, h: Node)
    requires Shaped(g, nodes) && h in g
    ensures h in nodes && h.next == if g[h] == [] then h else g[h][0]
    ensures g[h] != [] ==> g[h][0] in nodes && g[h][0] != h && g[h][0].next == if |g[h]| == 1 then h else g[h][1]
  {
    var r := RingAt(g, h);
    assert r[0] == h && h in r;
    if g[h] != [] {
      assert After(r, 0) == r[1] == g[h][0] && r[1] in r;
    }
    if |g[h]| > 1 {
      assert After(r, 1) == r[2];
    }
  }

  /** Forgetting about a ring leaves the others. */
  lemma ShapedWithout(g: Shape, nodes: set<Node>, h: Node)
    requires Shaped(g, nodes)
    ensures Shaped(g - {h}, nodes)
  {
    var g' := g - {h};
    forall k | k in g' ensures RingAt(g', k) == RingAt(g, k) {
    }
  }
}
