/** The hop count that build_tree maintains bottom-up, against the diameter of the tree.

    `Deepest` and `Longest` are what the code would compute with unbounded fields;
    `Depth4` and `Hops4` are what it stores in its 4-bit fields.
 */
module HopCount {
  import opened BusTree

  /** max_depth and max_hops of one attached child. */
  datatype Branch = Branch(depth: nat, hops: nat)

  /** Running values of update_hop_count: the two largest depths and the largest hop count. */
  datatype Hop = Hop(deep: int, second: int, hops: int)

  function Max(a: int, b: int): int { if a > b then a else b }

  function HopAdd(h: Hop, b: Branch): Hop {
    var m := if b.hops > h.hops then b.hops else h.hops;
    if b.depth > h.deep then Hop(b.depth, h.deep, m)
    else if b.depth > h.second then Hop(h.deep, b.depth, m)
    else Hop(h.deep, h.second, m)
  }

  function Fold(s: seq<Branch>): (h: Hop)
    ensures -1 <= h.second <= h.deep && 0 <= h.hops
  {
    if s == [] then Hop(-1, -1, 0) else HopAdd(Fold(s[..|s| - 1]), s[|s| - 1])
  }

  lemma FoldStep(s: seq<Branch>, b: Branch)
    ensures Fold(s + [b]) == HopAdd(Fold(s), b)
  {
    hide HopAdd;
    assert (s + [b])[..|s|] == s;
  }

  function DepthAbove(h: Hop): int { h.deep + 1 }
  function HopsAbove(h: Hop): int { Max(h.hops, h.deep + h.second + 2) }

  /** The first `n` children as the code would see them without field widths. */
  function Branches(ts: seq<Tree>, n: nat): (s: seq<Branch>)
    requires n <= |ts|
    ensures |s| == n && forall i :: 0 <= i < n ==> s[i] == Branch(Deepest(ts[i]), Longest(ts[i]))
    decreases ts, n
  {
    if n == 0 then [] else Branches(ts, n - 1) + [Branch(Deepest(ts[n - 1]), Longest(ts[n - 1]))]
  }

  function Arity(t: Tree): (n: nat)
    ensures n <= |t.kids|
  {
    if Linked(t.rec) <= |t.kids| then Linked(t.rec) else |t.kids|
  }

  function Deepest(t: Tree): nat { DepthAbove(Fold(Branches(t.kids, Arity(t)))) }
  function Longest(t: Tree): nat { HopsAbove(Fold(Branches(t.kids, Arity(t)))) }

  // ---- the same with 4-bit fields ------------------------------------------

  function Branches4(ts: seq<Tree>, n: nat): (s: seq<Branch>)
    requires n <= |ts|
    ensures |s| == n && forall i :: 0 <= i < n ==> s[i] == Branch(Depth4(ts[i]), Hops4(ts[i]))
    decreases ts, n
  {
    seq(n, i requires 0 <= i < n => Branch(Depth4(ts[i]), Hops4(ts[i])))
  }

  function Depth4(t: Tree): nat { DepthAbove(Fold(Branches4(t.kids, Arity(t)))) % 16 }
  function Hops4(t: Tree): nat { HopsAbove(Fold(Branches4(t.kids, Arity(t)))) % 16 }

  // ---- what the fold computes ----------------------------------------------

  /** Upper bounds: `hops` over single branches, `deep + second` over pairs of branches. */
  lemma {:induction false} FoldBounds(s: seq<Branch>)
    ensures var h := Fold(s);
      && (forall i :: 0 <= i < |s| ==> s[i].depth <= h.deep && s[i].hops <= h.hops)
      && (forall i, j :: 0 <= i < |s| && 0 <= j < |s| && i != j ==> s[i].depth + s[j].depth <= h.deep + h.second)
  {
    if s != [] {
      FoldBounds(s[..|s| - 1]);
    }
  }

  ghost predicate Attained(s: seq<Branch>, h: Hop) {
    && (h.hops == 0 || exists i :: 0 <= i < |s| && s[i].hops == h.hops)
    && (if s == [] then h.deep == -1 else exists i :: 0 <= i < |s| && s[i].depth == h.deep)
    && (if |s| <= 1 then h.second == -1 else
        exists i, j :: 0 <= i < |s| && 0 <= j < |s| && i != j && s[i].depth == h.deep && s[j].depth == h.second)
  }

  lemma {:induction false} FoldAttained(s: seq<Branch>)
    ensures Attained(s, Fold(s))
  {
    if s != [] {
      var f, b := s[..|s| - 1], s[|s| - 1];
      var g, h := Fold(f), Fold(s);
      FoldAttained(f);
      assert s[|s| - 1] == b && forall i :: 0 <= i < |f| ==> s[i] == f[i];
      if b.hops <= g.hops && h.hops != 0 {
        var i :| 0 <= i < |f| && f[i].hops == g.hops;
        assert s[i].hops == h.hops;
      }
      if f != [] {
        var i :| 0 <= i < |f| && f[i].depth == g.deep;
        assert s[i].depth == g.deep;
        if b.depth <= g.deep {
          FoldSecond(f, b, i);
        }
      }
    }
  }

  lemma FoldSecond(f: seq<Branch>, b: Branch, i: nat)
    requires i < |f| && f[i].depth == Fold(f).deep && Attained(f, Fold(f)) && b.depth <= Fold(f).deep
    ensures var s, h := f + [b], HopAdd(Fold(f), b);
      exists i, j :: 0 <= i < |s| && 0 <= j < |s| && i != j && s[i].depth == h.deep && s[j].depth == h.second
  {
    var s, g, h := f + [b], Fold(f), HopAdd(Fold(f), b);
    if b.depth > g.second {
      assert s[i].depth == h.deep && s[|f|].depth == h.second;
    } else {
      var k, j :| 0 <= k < |f| && 0 <= j < |f| && k != j && f[k].depth == g.deep && f[j].depth == g.second;
      assert s[k].depth == h.deep && s[j].depth == h.second;
    }
  }

  // ---- the same, read off a tree -------------------------------------------

  lemma TreeBounds(t: Tree)
    ensures Deepest(t) <= Longest(t)
    ensures forall i :: 0 <= i < Arity(t) ==> Deepest(t.kids[i]) + 1 <= Deepest(t) && Longest(t.kids[i]) <= Longest(t)
    ensures forall i, j :: 0 <= i < Arity(t) && 0 <= j < Arity(t) && i != j ==>
      Deepest(t.kids[i]) + Deepest(t.kids[j]) + 2 <= Longest(t)
  {
    hide Fold, Arity;
    var n := Arity(t);
    var s := Branches(t.kids, n);
    FoldBounds(s);
    forall i | 0 <= i < n
      ensures Deepest(t.kids[i]) + 1 <= Deepest(t) && Longest(t.kids[i]) <= Longest(t)
    {
      assert s[i].depth == Deepest(t.kids[i]) && s[i].hops == Longest(t.kids[i]);
    }
    forall i, j | 0 <= i < n && 0 <= j < n && i != j
      ensures Deepest(t.kids[i]) + Deepest(t.kids[j]) + 2 <= Longest(t)
    {
      assert s[i].depth == Deepest(t.kids[i]) && s[j].depth == Deepest(t.kids[j]);
    }
  }

  ghost predicate LongestInside(t: Tree) {
    exists i :: 0 <= i < Arity(t) && Longest(t.kids[i]) == Longest(t)
  }

  ghost predicate LongestAcross(t: Tree) {
    exists i, j :: 0 <= i < Arity(t) && 0 <= j < Arity(t) && i != j &&
      Deepest(t.kids[i]) + Deepest(t.kids[j]) + 2 == Longest(t)
  }

  lemma TreeFold(t: Tree)
    ensures var s := Branches(t.kids, Arity(t)); var h := Fold(s);
      && Deepest(t) == h.deep + 1 && Longest(t) == Max(h.hops, h.deep + h.second + 2) && |s| == Arity(t)
      && forall i :: 0 <= i < |s| ==> s[i].depth == Deepest(t.kids[i]) && s[i].hops == Longest(t.kids[i])
  {
    hide Fold, Arity;
  }

  lemma Branches4Step(ts: seq<Tree>, n: nat)
    requires n < |ts|
    ensures Branches4(ts, n + 1) == Branches4(ts, n) + [Branch(Depth4(ts[n]), Hops4(ts[n]))]
  {
    hide Depth4, Hops4;
  }

  lemma {:induction false} TreeAttained(t: Tree)
    ensures Arity(t) == 0 ==> Deepest(t) == 0
    ensures Arity(t) > 0 ==> exists i :: 0 <= i < Arity(t) && Deepest(t) == Deepest(t.kids[i]) + 1
    ensures LongestInside(t) || LongestAcross(t) || Longest(t) == Deepest(t)
  {
    hide Fold, Arity, Branches, Deepest, Longest;
    var n := Arity(t);
    var s := Branches(t.kids, n);
    var h := Fold(s);
    TreeFold(t);
    FoldAttained(s);
    if n > 0 {
      var i :| 0 <= i < |s| && s[i].depth == h.deep;
      assert Deepest(t) == Deepest(t.kids[i]) + 1;
    }
    if h.hops > h.deep + h.second + 2 {
      var i :| 0 <= i < |s| && s[i].hops == h.hops;
      assert Longest(t.kids[i]) == Longest(t);
    } else if n > 1 {
      var i, j :| 0 <= i < |s| && 0 <= j < |s| && i != j && s[i].depth == h.deep && s[j].depth == h.second;
      assert Deepest(t.kids[i]) + Deepest(t.kids[j]) + 2 == Longest(t);
    }
  }

  // ---- paths between nodes -------------------------------------------------

  /** `u` names a node of `t`: at each node on the way down, which child is entered. */
  predicate Has(t: Tree, u: seq<nat>) {
    u == [] || (u[0] < Arity(t) && Has(t.kids[u[0]], u[1..]))
  }

  /** Number of connections between two nodes: up to where their names part, then down. */
  function Dist(u: seq<nat>, v: seq<nat>): nat {
    if u != [] && v != [] && u[0] == v[0] then Dist(u[1..], v[1..]) else |u| + |v|
  }

  ghost predicate IsDiameter(t: Tree, d: nat) {
    && (forall u, v :: Has(t, u) && Has(t, v) ==> Dist(u, v) <= d)
    && (exists u, v :: Has(t, u) && Has(t, v) && Dist(u, v) == d)
  }

  lemma {:induction false} DepthBound(t: Tree, u: seq<nat>)
    requires Has(t, u)
    ensures |u| <= Deepest(t)
  {
    hide Deepest, Longest, Arity;
    if u != [] {
      DepthBound(t.kids[u[0]], u[1..]);
      TreeBounds(t);
    }
  }

  lemma {:induction false} DistBound(t: Tree, u: seq<nat>, v: seq<nat>)
    requires Has(t, u) && Has(t, v)
    ensures Dist(u, v) <= Longest(t)
  {
    hide Deepest, Longest, Arity;
    TreeBounds(t);
    if u != [] && v != [] && u[0] == v[0] {
      DistBound(t.kids[u[0]], u[1..], v[1..]);
    } else if u != [] && v != [] {
      DepthBound(t.kids[u[0]], u[1..]);
      DepthBound(t.kids[v[0]], v[1..]);
    } else {
      DepthBound(t, u);
      DepthBound(t, v);
    }
  }

  lemma {:induction false} DepthWitness(t: Tree) returns (u: seq<nat>)
    ensures Has(t, u) && |u| == Deepest(t)
  {
    hide Deepest, Longest, Arity;
    TreeAttained(t);
    if Arity(t) == 0 {
      u := [];
    } else {
      var i :| 0 <= i < Arity(t) && Deepest(t) == Deepest(t.kids[i]) + 1;
      var w := DepthWitness(t.kids[i]);
      u := [i] + w;
      assert u[1..] == w;
    }
  }

  lemma {:induction false} DistWitness(t: Tree) returns (u: seq<nat>, v: seq<nat>)
    ensures Has(t, u) && Has(t, v) && Dist(u, v) == Longest(t)
  {
    hide Deepest, Longest, Arity;
    TreeAttained(t);
    if LongestInside(t) {
      var i :| 0 <= i < Arity(t) && Longest(t.kids[i]) == Longest(t);
      var x, y := DistWitness(t.kids[i]);
      u, v := [i] + x, [i] + y;
      assert u[1..] == x && v[1..] == y;
    } else if LongestAcross(t) {
      var i, j :| 0 <= i < Arity(t) && 0 <= j < Arity(t) && i != j &&
        Deepest(t.kids[i]) + Deepest(t.kids[j]) + 2 == Longest(t);
      var x := DepthWitness(t.kids[i]);
      var y := DepthWitness(t.kids[j]);
      u, v := [i] + x, [j] + y;
      assert u[1..] == x && v[1..] == y;
    } else {
      u := DepthWitness(t);
      v := [];
    }
  }

  lemma LongestIsDiameter(t: Tree)
    ensures IsDiameter(t, Longest(t))
  {
    hide Longest, Has, Dist;
    forall u, v | Has(t, u) && Has(t, v) ensures Dist(u, v) <= Longest(t) {
      DistBound(t, u, v);
    }
    var u, v := DistWitness(t);
  }

  // ---- the 4-bit fields are exact up to 15 ---------------------------------

  lemma {:induction false} FitsFourBits(t: Tree)
    requires Longest(t) <= 15
    ensures Depth4(t) == Deepest(t) && Hops4(t) == Longest(t)
  {
    hide Depth4, Hops4, Deepest, Longest, Arity;
    TreeBounds(t);
    forall i | 0 <= i < Arity(t)
      ensures Depth4(t.kids[i]) == Deepest(t.kids[i]) && Hops4(t.kids[i]) == Longest(t.kids[i])
    {
      FitsFourBits(t.kids[i]);
    }
    FitsIfKidsFit(t);
  }

  lemma FitsIfKidsFit(t: Tree)
    requires Deepest(t) <= 15 && Longest(t) <= 15
    requires forall i | 0 <= i < Arity(t) ::
      Depth4(t.kids[i]) == Deepest(t.kids[i]) && Hops4(t.kids[i]) == Longest(t.kids[i])
    ensures Depth4(t) == Deepest(t) && Hops4(t) == Longest(t)
  {
    hide Fold, Arity;
    assert Branches4(t.kids, Arity(t)) == Branches(t.kids, Arity(t));
  }

  /** The stored hop count of a tree is its diameter exactly if the diameter fits the field. */
  lemma StoredHopsExact(t: Tree, d: nat)
    requires IsDiameter(t, d)
    ensures Hops4(t) == d <==> d <= 15
  {
    hide Longest, Has, Dist;
    LongestIsDiameter(t);
    var u, v :| Has(t, u) && Has(t, v) && Dist(u, v) == d;
    var x, y :| Has(t, x) && Has(t, y) && Dist(x, y) == Longest(t);
    assert d == Longest(t);
    if d <= 15 {
      FitsFourBits(t);
    }
  }
}
