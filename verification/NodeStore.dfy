/** The nodes that build_tree leaves behind, as a function of the forest it has read.

    Node pointers are indices into a store of nodes.  A tree occupies consecutive
    indices in post-order, so its root comes last.  A tree whose parent is not known yet
    has an empty parent port and remembers that port's index in `color`.
 */
module NodeStore {
  import opened Basics
  import opened SelfIdPacket
  import opened BusTree
  import opened HopCount

  datatype Node = Node(
    id: nat, color: nat, linkOn: bool, phySpeed: nat, initiatedReset: bool,
    maxSpeed: nat, bPath: bool, maxDepth: nat, maxHops: nat, ports: seq<Option<nat>>)

  const LOCAL_BUS: nat := 0xffc0

  // ---- where things are ----------------------------------------------------

  function Roots(ts: seq<Tree>, base: nat): (s: seq<nat>)
    ensures |s| == |ts|
  {
    if ts == [] then [] else [base + Size(ts[0]) - 1] + Roots(ts[1..], base + Size(ts[0]))
  }

  lemma {:induction false} RootsRange(ts: seq<Tree>, base: nat, k: nat)
    requires k < |ts|
    ensures base <= Roots(ts, base)[k] < base + SizeF(ts)
  {
    if k > 0 {
      RootsRange(ts[1..], base + Size(ts[0]), k - 1);
    }
  }

  lemma RootsCons(ts: seq<Tree>, base: nat)
    ensures ts == [] ==> Roots(ts, base) == [] && SizeF(ts) == 0
    ensures ts != [] ==>
      && Roots(ts, base) == [base + Size(ts[0]) - 1] + Roots(ts[1..], base + Size(ts[0]))
      && SizeF(ts) == Size(ts[0]) + SizeF(ts[1..])
  {
    hide Size;
  }

  lemma {:induction false} RootsAppend(a: seq<Tree>, b: seq<Tree>, base: nat)
    ensures Roots(a + b, base) == Roots(a, base) + Roots(b, base + SizeF(a))
  {
    hide *;
    RootsCons(a, base);
    if a == [] {
      assert a + b == b;
      assert [] + Roots(b, base) == Roots(b, base);
    } else {
      RootsAppend(a[1..], b, base + Size(a[0]));
      assert (a + b)[1..] == a[1..] + b && (a + b)[0] == a[0];
      RootsCons(a + b, base);
      var r0, r1, r2 := [base + Size(a[0]) - 1], Roots(a[1..], base + Size(a[0])), Roots(b, base + SizeF(a));
      assert r0 + (r1 + r2) == r0 + r1 + r2;
    }
  }

  /** What port `p` is connected to. */
  function LinkAt(vis: seq<Status>, roots: seq<nat>, up: Option<nat>, p: nat): Option<nat>
    requires p < |vis| && Count(vis, Child) <= |roots|
  {
    CountPrefix(vis, p, Child);
    match vis[p]
    case Child => Some(roots[Count(vis[..p], Child)])
    case Parent => up
    case _ => None
  }

  /** The ports array after the first `done` ports have been looked at. */
  function Links(vis: seq<Status>, roots: seq<nat>, up: Option<nat>, done: nat): (s: seq<Option<nat>>)
    requires Count(vis, Child) <= |roots|
    ensures |s| == |vis|
  {
    seq(|vis|, p requires 0 <= p < |vis| => if p < done then LinkAt(vis, roots, up, p) else None)
  }

  /** Temporary parent-port index, or the card's colour once the parent is known. */
  function ColorOf(vis: seq<Status>, color: nat, up: Option<nat>): nat {
    if up.None? && UpPort(vis).Some? then UpPort(vis).value else color
  }

  predicate Wired(t: Tree) { Linked(t.rec) <= |t.kids| }

  /** The node of `t` itself, when `t` occupies the store from `base` on. */
  function RootNode(t: Tree, base: nat, color: nat, up: Option<nat>): Node
    requires Wired(t)
  {
    var vis := Visible(t.rec);
    Node(LOCAL_BUS + t.rec.phy, ColorOf(vis, color, up), t.rec.linkOn, t.rec.speed, t.rec.initiatedReset,
         0, false, Depth4(t), Hops4(t), Links(vis, Roots(t.kids, base), up, |vis|))
  }

  predicate WiredAll(t: Tree) { Wired(t) && forall i | 0 <= i < |t.kids| :: WiredAll(t.kids[i]) }
  predicate WiredF(ts: seq<Tree>) { forall i | 0 <= i < |ts| :: WiredAll(ts[i]) }

  function Flat(t: Tree, base: nat, color: nat, up: Option<nat>): (s: seq<Node>)
    requires WiredAll(t)
    ensures |s| == Size(t)
  {
    FlatF(t.kids, base, color, base + SizeF(t.kids), Linked(t.rec)) + [RootNode(t, base, color, up)]
  }

  /** A row of trees; the first `linked` of them have `owner` as their parent. */
  function FlatF(ts: seq<Tree>, base: nat, color: nat, owner: nat, linked: nat): (s: seq<Node>)
    requires WiredF(ts)
    ensures |s| == SizeF(ts)
  {
    if ts == [] then [] else
    Flat(ts[0], base, color, if linked > 0 then Some(owner) else None)
    + FlatF(ts[1..], base + Size(ts[0]), color, owner, if linked > 0 then linked - 1 else 0)
  }

  lemma {:induction false} HangingWired(ts: seq<Tree>, base: nat)
    requires HangingF(ts, base)
    ensures WiredF(ts)
    decreases ts
  {
    if ts != [] {
      HangingWired(ts[0].kids, base);
      HangingWired(ts[1..], base + Size(ts[0]));
    }
  }

  lemma {:induction false} FlatFAppend(a: seq<Tree>, b: seq<Tree>, base: nat, color: nat, o1: nat, o2: nat)
    requires WiredF(a) && WiredF(b)
    ensures FlatF(a + b, base, color, o1, 0) == FlatF(a, base, color, o1, 0) + FlatF(b, base + SizeF(a), color, o2, 0)
  {
    hide Flat, WiredAll, Size;
    if a == [] {
      assert a + b == b;
      OwnerIrrelevant(b, base, color, o1, o2);
    } else {
      assert (a + b)[1..] == a[1..] + b && (a + b)[0] == a[0];
      FlatFAppend(a[1..], b, base + Size(a[0]), color, o1, o2);
      var s0, s1, s2 := Flat(a[0], base, color, None), FlatF(a[1..], base + Size(a[0]), color, o1, 0),
        FlatF(b, base + SizeF(a), color, o2, 0);
      assert s0 + (s1 + s2) == s0 + s1 + s2;
    }
  }

  lemma {:induction false} OwnerIrrelevant(ts: seq<Tree>, base: nat, color: nat, o1: nat, o2: nat)
    requires WiredF(ts)
    ensures FlatF(ts, base, color, o1, 0) == FlatF(ts, base, color, o2, 0)
  {
    hide Flat, WiredAll;
    if ts != [] {
      OwnerIrrelevant(ts[1..], base + Size(ts[0]), color, o1, o2);
    }
  }

  // ---- fixing up one child's parent reference ------------------------------

  lemma {:induction false} OnlyOneParent(vis: seq<Status>, p: nat, q: nat)
    requires p < q < |vis| && vis[p] == Parent && vis[q] == Parent
    ensures Count(vis, Parent) >= 2
  {
    CountPrefix(vis[..q], p, Parent);
    assert vis[..q][p] == Parent;
    CountPrefix(vis, q, Parent);
  }

  /** Storing the parent in the remembered port turns the pending root into the linked one. */
  lemma FixUpRoot(t: Tree, base: nat, color: nat, owner: nat)
    requires Wired(t) && Parents(t.rec) == 1
    ensures var n := RootNode(t, base, color, None);
      && n.color < |n.ports| && n.ports[n.color] == None
      && n.(ports := n.ports[n.color := Some(owner)], color := color) == RootNode(t, base, color, Some(owner))
  {
    var vis, roots := Visible(t.rec), Roots(t.kids, base);
    var n := RootNode(t, base, color, None);
    var u := UpPort(vis).value;
    assert n.color == u;
    forall p | 0 <= p < |vis| && p != u ensures vis[p] != Parent {
      if vis[p] == Parent {
        OnlyOneParent(vis, if p < u then p else u, if p < u then u else p);
      }
    }
    assert n.ports[u := Some(owner)] == Links(vis, roots, Some(owner), |vis|);
  }

  /** Where the k-th tree of a row starts. */
  function Start(ts: seq<Tree>, base: nat, k: nat): (b: nat)
    requires k <= |ts|
    ensures b >= base
  {
    if k == 0 then base else Start(ts[1..], base + Size(ts[0]), k - 1)
  }

  lemma {:induction false} FixUpChild(ts: seq<Tree>, base: nat, color: nat, owner: nat, k: nat)
    requires WiredF(ts) && k < |ts|
    ensures var s, at := FlatF(ts, base, color, owner, k), Roots(ts, base)[k] - base;
      && 0 <= at < |s|
      && s[at] == RootNode(ts[k], Start(ts, base, k), color, None)
      && s[at := RootNode(ts[k], Start(ts, base, k), color, Some(owner))] == FlatF(ts, base, color, owner, k + 1)
  {
    hide RootNode, Linked, Flat, Size;
    assert WiredAll(ts[k]) && Wired(ts[k]);
    hide WiredAll;
    var head, rest := ts[0], ts[1..];
    var base1 := base + Size(head);
    if k == 0 {
      FixUpFirst(head, base, color, owner, FlatF(rest, base1, color, owner, 0));
    } else {
      FixUpChild(rest, base1, color, owner, k - 1);
      assert Start(ts, base, k) == Start(rest, base1, k - 1);
      hide Start;
      var f := Flat(head, base, color, Some(owner));
      var s := FlatF(rest, base1, color, owner, k - 1);
      var at := Roots(rest, base1)[k - 1] - base1;
      var n1 := RootNode(ts[k], Start(ts, base, k), color, Some(owner));
      assert rest[k - 1] == ts[k];
      assert (f + s)[|f| + at := n1] == f + s[at := n1];
    }
  }

  lemma FixUpFirst(t: Tree, base: nat, color: nat, owner: nat, tail: seq<Node>)
    requires WiredAll(t)
    ensures var s, at := Flat(t, base, color, None) + tail, Size(t) - 1;
      && s[at] == RootNode(t, base, color, None)
      && s[at := RootNode(t, base, color, Some(owner))] == Flat(t, base, color, Some(owner)) + tail
  {
    hide RootNode, Linked, FlatF;
    var front := FlatF(t.kids, base, color, base + SizeF(t.kids), Linked(t.rec));
    var n0, n1 := RootNode(t, base, color, None), RootNode(t, base, color, Some(owner));
    assert (front + [n0] + tail)[|front| := n1] == front + [n1] + tail;
  }

  // ---- the hop count reads the linked children -----------------------------

  /** max_depth and max_hops of the nodes behind the first `n` ports. */
  function PortBranches(a: seq<Node>, ports: seq<Option<nat>>, n: nat): seq<Branch>
    requires n <= |ports| && forall p | p in ports && p.Some? :: p.value < |a|
  {
    if n == 0 then [] else
    var s := PortBranches(a, ports, n - 1);
    if ports[n - 1].None? then s else
    var c := a[ports[n - 1].value];
    s + [Branch(c.maxDepth, c.maxHops)]
  }

  lemma NoBranches(a: seq<Node>, ports: seq<Option<nat>>)
    requires forall p | p in ports && p.Some? :: p.value < |a|
    ensures Fold(PortBranches(a, ports, 0)) == Hop(-1, -1, 0)
  {
  }

  lemma PortBranchesStep(a: seq<Node>, ports: seq<Option<nat>>, i: nat)
    requires i < |ports| && forall p | p in ports && p.Some? :: p.value < |a|
    ensures ports[i].None? ==> PortBranches(a, ports, i + 1) == PortBranches(a, ports, i)
    ensures ports[i].Some? ==> ports[i].value < |a| && var c := a[ports[i].value];
      PortBranches(a, ports, i + 1) == PortBranches(a, ports, i) + [Branch(c.maxDepth, c.maxHops)]
  {
    assert ports[i] in ports;
  }

  lemma {:induction false} RootDepths(ts: seq<Tree>, base: nat, color: nat, owner: nat, linked: nat, k: nat)
    requires WiredF(ts) && k < |ts|
    ensures base <= Roots(ts, base)[k] < base + SizeF(ts)
    ensures var n := FlatF(ts, base, color, owner, linked)[Roots(ts, base)[k] - base];
      n.maxDepth == Depth4(ts[k]) && n.maxHops == Hops4(ts[k])
  {
    hide Flat, WiredAll, Depth4, Hops4, Size;
    var base1, linked1 := base + Size(ts[0]), if linked > 0 then linked - 1 else 0;
    if k == 0 {
      RootDepth(ts[0], base, color, if linked > 0 then Some(owner) else None);
    } else {
      RootDepths(ts[1..], base1, color, owner, linked1, k - 1);
      var f, s := Flat(ts[0], base, color, if linked > 0 then Some(owner) else None),
        FlatF(ts[1..], base1, color, owner, linked1);
      var at := Roots(ts[1..], base1)[k - 1] - base1;
      assert (f + s)[|f| + at] == s[at];
    }
  }

  lemma RootDepth(t: Tree, base: nat, color: nat, up: Option<nat>)
    requires WiredAll(t)
    ensures var n := Flat(t, base, color, up)[Size(t) - 1]; n.maxDepth == Depth4(t) && n.maxHops == Hops4(t)
  {
    hide FlatF, Links, Linked, Depth4, Hops4;
  }

  lemma {:induction false} PortBranchesAre(a: seq<Node>, t: Tree, base: nat, n: nat)
    requires Wired(t)
    requires forall k :: 0 <= k < |t.kids| ==> var r := Roots(t.kids, base)[k];
      r < |a| && a[r].maxDepth == Depth4(t.kids[k]) && a[r].maxHops == Hops4(t.kids[k])
    requires n <= Total(t.rec)
    ensures var vis, roots := Visible(t.rec), Roots(t.kids, base);
      var ports := Links(vis, roots, None, |vis|);
      && Count(vis[..n], Child) <= Linked(t.rec)
      && (forall p | p in ports && p.Some? :: p.value < |a|)
      && PortBranches(a, ports, n) == Branches4(t.kids, Count(vis[..n], Child))
  {
    hide Depth4, Hops4, Branches4, Count, Roots, LinkAt;
    var vis, roots := Visible(t.rec), Roots(t.kids, base);
    var ports := Links(vis, roots, None, |vis|);
    CountPrefix(vis, n, Child);
    LinksInStore(a, t, base);
    if n > 0 {
      PortBranchesAre(a, t, base, n - 1);
      CountPrefix(vis, n - 1, Child);
      CountStep(vis, n - 1, Child);
      LinkAtIs(vis, roots, n - 1);
      assert ports[n - 1] == LinkAt(vis, roots, None, n - 1);
      if vis[n - 1] == Child {
        Branches4Step(t.kids, Count(vis[..n - 1], Child));
      }
    } else {
      CountNone(vis);
    }
  }

  lemma CountNone(vis: seq<Status>)
    ensures Count(vis[..0], Child) == 0
  {
  }

  lemma LinkAtIs(vis: seq<Status>, roots: seq<nat>, p: nat)
    requires p < |vis| && Count(vis, Child) <= |roots|
    ensures LinkAt(vis, roots, None, p).Some? <==> vis[p] == Child
    ensures vis[p] == Child ==> Count(vis[..p], Child) < |roots| && LinkAt(vis, roots, None, p).value == roots[Count(vis[..p], Child)]
  {
    hide Count;
    CountPrefix(vis, p, Child);
  }

  lemma LinksInStore(a: seq<Node>, t: Tree, base: nat)
    requires Wired(t) && forall k :: 0 <= k < |t.kids| ==> Roots(t.kids, base)[k] < |a|
    ensures forall p | p in Links(Visible(t.rec), Roots(t.kids, base), None, |Visible(t.rec)|) && p.Some? :: p.value < |a|
  {
    hide Count, Roots, LinkAt;
    var vis, roots := Visible(t.rec), Roots(t.kids, base);
    forall p | 0 <= p < |vis| && LinkAt(vis, roots, None, p).Some? ensures LinkAt(vis, roots, None, p).value < |a| {
      LinkAtIs(vis, roots, p);
    }
  }
}
