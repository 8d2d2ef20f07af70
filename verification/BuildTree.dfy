/** What build_tree computes from a self-ID stream, as functions of the stream. */
module BuildTree {
  import opened Basics
  import opened SelfIdPacket
  import opened BusTree
  import opened HopCount
  import opened NodeStore

  const SCODE_BETA: nat := 3

  /** The forest read from quadlets `q` after `n` reports, or None if they are rejected. */
  function Outcome(q: seq<u32>, n: nat, forest: seq<Tree>): Option<seq<Tree>> {
    var rs := Records(q);
    if rs.None? then None else Parse(rs.value, n, forest)
  }

  lemma OutcomeStep(q: seq<u32>, h: nat, n: nat, forest: seq<Tree>)
    requires IsSequence(q, h)
    ensures var f := Shift(forest, Decode(q[..h]), n, |q| == h);
      Outcome(q, n, forest) == if f.None? then None else Outcome(q[h..], n + 1, f.value)
  {
    hide Shift, Decode;
    SequenceUnique(q, HeadLength(q), h);
    var tail := Records(q[h..]);
    if tail.Some? {
      var rs := [Decode(q[..h])] + tail.value;
      assert rs[1..] == tail.value;
      assert (|rs| == 1) == (tail.value == []) && (tail.value == []) == (|q| == h);
    }
  }

  /** Highest-numbered node that offers to be isochronous resource manager. */
  function LastContender(rs: seq<SelfId>): (r: Option<nat>)
    ensures r.Some? ==> r.value < |rs| && rs[r.value].contender
    ensures r.Some? ==> forall i :: r.value < i < |rs| ==> !rs[i].contender
    ensures r.None? ==> forall i :: 0 <= i < |rs| ==> !rs[i].contender
  {
    if rs == [] then None
    else if rs[|rs| - 1].contender then Some(|rs| - 1) else LastContender(rs[..|rs| - 1])
  }

  predicate SameGap(rs: seq<SelfId>, g: nat) { forall i :: 0 <= i < |rs| ==> rs[i].gap == g }

  predicate Repeater(r: SelfId) { r.speed == SCODE_BETA && Parents(r) + Children(r) > 1 }

  predicate BetaRepeaters(rs: seq<SelfId>) { exists i :: 0 <= i < |rs| && Repeater(rs[i]) }

  /** Everything a successful build establishes about the store and the card's fields. */
  ghost predicate Built(before: seq<Node>, after: seq<Node>, color: nat, forest: seq<Tree>) {
    WiredF(forest) && after == before + FlatF(forest, |before|, color, 0, 0)
  }

  /** Node created for report `r`, before any port is linked. */
  function Fresh(r: SelfId, color: nat): Node {
    Node(LOCAL_BUS + r.phy, color, r.linkOn, r.speed, r.initiatedReset, 0, false, 0, 0,
         seq(Total(r), _ => None))
  }

  /** The new node while its ports are being looked at. */
  function Partial(r: SelfId, roots: seq<nat>, color: nat, done: nat): Node
    requires Linked(r) <= |roots| && done <= Total(r)
  {
    Fresh(r, color).(color := ColorOf(Visible(r)[..done], color, None),
                     ports := Links(Visible(r), roots, None, done))
  }

  lemma PartialStart(r: SelfId, roots: seq<nat>, color: nat)
    requires Linked(r) <= |roots|
    ensures Partial(r, roots, color, 0) == Fresh(r, color)
  {
    assert Links(Visible(r), roots, None, 0) == Fresh(r, color).ports;
  }

  /** One port further: its link is stored, or its index remembered. */
  lemma PartialStep(r: SelfId, roots: seq<nat>, color: nat, p: nat)
    requires Linked(r) <= |roots| && p < Total(r)
    ensures var n, vis := Partial(r, roots, color, p), Visible(r);
      && |n.ports| == |vis| == Total(r)
      && (vis[p] == Child ==> Count(vis[..p], Child) < Linked(r))
      && Partial(r, roots, color, p + 1) ==
         match vis[p]
         case Parent => n.(color := p)
         case Child => n.(ports := n.ports[p := Some(roots[Count(vis[..p], Child)])])
         case _ => n
  {
    var vis := Visible(r);
    var n := Partial(r, roots, color, p);
    CountPrefix(vis, p, Child);
    assert vis[..p + 1][..p] == vis[..p];
    assert Links(vis, roots, None, p + 1) == n.ports[p := LinkAt(vis, roots, None, p)];
    if vis[p] != Child {
      assert LinkAt(vis, roots, None, p) == None && n.ports[p] == None;
      assert n.ports[p := None] == n.ports;
    }
  }

  lemma VisibleStatus(s: seq<u32>, r: SelfId, p: nat)
    requires 1 <= |s| <= 4 && r == Decode(s) && p < Total(r)
    ensures |Visible(r)| == Total(r) && PortStatus(s, p) == Visible(r)[p]
  {
    hide PortStatus;
  }

  lemma VisibleCounts(r: SelfId)
    ensures |Visible(r)| == Total(r)
    ensures Count(Visible(r)[..0], Child) == 0 && Count(Visible(r)[..0], Parent) == 0
    ensures Count(Visible(r)[..Total(r)], Child) == Linked(r)
    ensures Count(Visible(r)[..Total(r)], Parent) == Parents(r)
  {
    assert Visible(r)[..Total(r)] == Visible(r);
  }

  lemma PartialEnd(t: Tree, base: nat, color: nat)
    requires Wired(t)
    ensures Partial(t.rec, Roots(t.kids, base), color, Total(t.rec)).(maxDepth := Depth4(t), maxHops := Hops4(t))
      == RootNode(t, base, color, None)
  {
    var vis := Visible(t.rec);
    assert vis[..|vis|] == vis;
  }

  /** The forest's store, with the subtrees about to become children split off. */
  lemma SplitForest(forest: seq<Tree>, c: nat, base: nat, color: nat, owner: nat)
    requires HangingF(forest, 0) && c <= |forest|
    ensures var low, kids := forest[..|forest| - c], forest[|forest| - c..];
      && WiredF(low) && WiredF(kids) && WiredF(forest) && HangingF(kids, SizeF(low))
      && FlatF(forest, base, color, 0, 0)
         == FlatF(low, base, color, 0, 0) + FlatF(kids, base + SizeF(low), color, owner, 0)
      && Roots(forest, base) == Roots(low, base) + Roots(kids, base + SizeF(low))
      && SizeF(forest) == SizeF(low) + SizeF(kids)
  {
    hide FlatF, Roots, HangingF, SizeF;
    var low, kids := forest[..|forest| - c], forest[|forest| - c..];
    assert low + kids == forest;
    HangingWired(forest, 0);
    HangingFAppend(low, kids, 0);
    FlatFAppend(low, kids, base, color, 0, owner);
    RootsAppend(low, kids, base);
    SizeFAppend(low, kids);
  }

  /** Pushing the finished tree gives the forest's store again. */
  lemma JoinForest(low: seq<Tree>, t: Tree, base: nat, color: nat)
    requires WiredF(low) && WiredAll(t)
    ensures WiredF(low + [t])
    ensures FlatF(low + [t], base, color, 0, 0)
      == FlatF(low, base, color, 0, 0)
         + (FlatF(t.kids, base + SizeF(low), color, base + SizeF(low) + SizeF(t.kids), Linked(t.rec))
            + [RootNode(t, base + SizeF(low), color, None)])
    ensures Roots(low + [t], base) == Roots(low, base) + [base + SizeF(low) + SizeF(t.kids)]
    ensures SizeF(low + [t]) == SizeF(low) + SizeF(t.kids) + 1
  {
    hide *;
    var b := base + SizeF(low);
    SingleWired(low, t);
    FlatFAppend(low, [t], base, color, 0, 0);
    RootsAppend(low, [t], base);
    SizeFAppend(low, [t]);
    SingleFlat(t, b, color);
  }

  lemma SingleWired(low: seq<Tree>, t: Tree)
    requires WiredF(low) && WiredAll(t)
    ensures WiredF([t]) && WiredF(low + [t]) && Wired(t) && WiredF(t.kids)
  {
  }

  lemma SingleFlat(t: Tree, b: nat, color: nat)
    requires WiredAll(t) && WiredF([t]) && WiredF(t.kids)
    ensures FlatF([t], b, color, 0, 0)
      == FlatF(t.kids, b, color, b + SizeF(t.kids), Linked(t.rec)) + [RootNode(t, b, color, None)]
    ensures Roots([t], b) == [b + SizeF(t.kids)] && SizeF([t]) == SizeF(t.kids) + 1
  {
    hide RootNode, Linked;
    assert [t][1..] == [];
    assert FlatF([t], b, color, 0, 0) == Flat(t, b, color, None) + FlatF([t][1..], b + Size(t), color, 0, 0);
    assert Roots([t], b) == [b + Size(t) - 1] + Roots([t][1..], b + Size(t));
  }

  lemma {:induction false} KidsHaveParent(ts: seq<Tree>, hang: nat, k: nat)
    requires HangingF(ts, hang) && k < |ts|
    ensures Parents(ts[k].rec) == 1
  {
    if k > 0 {
      KidsHaveParent(ts[1..], hang + Size(ts[0]), k - 1);
    }
  }

  /** Linking child `k` in both directions: the index found in the child's color is one of
      its ports, that port was still empty, and the result is the store with `k + 1` linked
      children. */
  lemma LinkChild(a: seq<Node>, front: seq<Node>, ts: seq<Tree>, color: nat, k: nat, hang: nat, n: Node, m: Node)
    requires WiredF(ts) && HangingF(ts, hang) && k < |ts|
    requires var base := |front|; var owner := base + SizeF(ts);
      a == front + FlatF(ts, base, color, owner, k) + [n]
    ensures var base := |front|; var owner := base + SizeF(ts); var child := Roots(ts, base)[k];
      && child < owner == |a| - 1 && a[child].color < |a[child].ports| && a[child].ports[a[child].color] == None
      && a[owner := m][child := a[child].(ports := a[child].ports[a[child].color := Some(owner)], color := color)]
         == front + FlatF(ts, base, color, owner, k + 1) + [m]
  {
    hide RootNode, FlatF, Roots, HangingF, SizeF;
    var base := |front|;
    var owner := base + SizeF(ts);
    var child := Roots(ts, base)[k];
    var s, s' := FlatF(ts, base, color, owner, k), FlatF(ts, base, color, owner, k + 1);
    RootsRange(ts, base, k);
    FixUpChild(ts, base, color, owner, k);
    KidsHaveParent(ts, hang, k);
    FixUpRoot(ts[k], Start(ts, base, k), color, owner);
    var c := RootNode(ts[k], Start(ts, base, k), color, Some(owner));
    assert a[child] == s[child - base];
    assert (front + s + [n])[owner := m][child := c] == front + s[child - base := c] + [m];
  }

  /** The branches update_hop_count sees behind the new node's ports are its children. */
  lemma NewNodeBranches(a: seq<Node>, front: seq<Node>, t: Tree, color: nat)
    requires Wired(t) && WiredF(t.kids)
    requires var roots := Roots(t.kids, |front|);
      a == front + FlatF(t.kids, |front|, color, |front| + SizeF(t.kids), Linked(t.rec))
           + [Partial(t.rec, roots, color, Total(t.rec))]
    ensures |a| == |front| + SizeF(t.kids) + 1
    ensures var n := a[|a| - 1];
      && (forall p | p in n.ports && p.Some? :: p.value < |a|)
      && DepthAbove(Fold(PortBranches(a, n.ports, |n.ports|))) % 16 == Depth4(t)
      && HopsAbove(Fold(PortBranches(a, n.ports, |n.ports|))) % 16 == Hops4(t)
  {
    hide RootNode, FlatF, Roots, Fold, Depth4, Hops4, WiredF;
    var base := |front|;
    var roots := Roots(t.kids, base);
    var s := FlatF(t.kids, base, color, base + SizeF(t.kids), Linked(t.rec));
    forall k | 0 <= k < |t.kids|
      ensures roots[k] < |a| && a[roots[k]].maxDepth == Depth4(t.kids[k]) && a[roots[k]].maxHops == Hops4(t.kids[k])
    {
      RootDepths(t.kids, base, color, base + SizeF(t.kids), Linked(t.rec), k);
      assert a[roots[k]] == s[roots[k] - base];
    }
    PortBranchesAre(a, t, base, Total(t.rec));
    VisibleCounts(t.rec);
    HopsOfTree(t);
  }

  lemma HopsOfTree(t: Tree)
    requires Wired(t)
    ensures Depth4(t) == DepthAbove(Fold(Branches4(t.kids, Linked(t.rec)))) % 16
    ensures Hops4(t) == HopsAbove(Fold(Branches4(t.kids, Linked(t.rec)))) % 16
  {
  }

  /** Records read so far, and what they say about the manager and the gap count. */
  lemma RecordsStep(q: seq<u32>, h: nat)
    requires IsSequence(q, h)
    ensures Records(q) == Prepend([Decode(q[..h])], Records(q[h..]))
  {
    SequenceUnique(q, HeadLength(q), h);
  }

  lemma {:induction false} LastContenderStep(rs: seq<SelfId>, r: SelfId, base: nat)
    ensures Shifted(LastContender(rs + [r]), base)
      == if r.contender then Some(base + |rs|) else Shifted(LastContender(rs), base)
  {
    assert (rs + [r])[..|rs|] == rs;
  }

  lemma BetaStep(rs: seq<SelfId>, r: SelfId)
    ensures BetaRepeaters(rs + [r]) == (BetaRepeaters(rs) || Repeater(r))
  {
    hide Repeater;
    var s := rs + [r];
    if BetaRepeaters(rs) {
      var i :| 0 <= i < |rs| && Repeater(rs[i]);
      assert Repeater(s[i]);
    }
    if Repeater(r) {
      assert Repeater(s[|rs|]);
    }
  }

  function Shifted(r: Option<nat>, base: nat): Option<nat> {
    if r.None? then None else Some(base + r.value)
  }

  function GapOf(rs: seq<SelfId>, first: nat): nat { if SameGap(rs, first) then first else 0 }

  lemma GapStep(rs: seq<SelfId>, r: SelfId, first: nat)
    ensures GapOf(rs + [r], first) == if r.gap != GapOf(rs, first) then 0 else GapOf(rs, first)
  {
    var s := rs + [r];
    assert s[|rs|] == r && forall i :: 0 <= i < |rs| ==> s[i] == rs[i];
    assert SameGap(s, first) <==> SameGap(rs, first) && r.gap == first;
  }

  /** A child count that fits the stack leaves a tree whose children are all there. */
  lemma NewTreeWired(forest: seq<Tree>, r: SelfId)
    requires Children(r) <= |forest| && WiredF(forest)
    ensures var t := Tree(r, forest[|forest| - Children(r)..]);
      Linked(r) <= |t.kids| && Wired(t) && WiredF(t.kids) && WiredAll(t)
  {
    hide Linked, Children;
  }

  /** Shifting with the checks spelled out, in the form the code performs them. */
  lemma ShiftIs(forest: seq<Tree>, r: SelfId, n: nat, last: bool)
    ensures var c := Children(r);
      Shift(forest, r, n, last) ==
        if r.phy != n || c > |forest| || Parents(r) != (if last then 0 else 1) then None
        else Some(forest[..|forest| - c] + [Tree(r, forest[|forest| - c..])])
  {
  }

  lemma DecodedFields(s: seq<u32>)
    requires 1 <= |s| <= 4
    ensures var r := Decode(s); var q := s[0];
      r.phy == PhyId(q) && r.contender == Contender(q) && r.gap == GapCount(q) && r.speed == SpeedCode(q)
      && r.linkOn == LinkActive(q) && r.initiatedReset == InitiatedReset(q)
  {
  }

  lemma FreshIs(s: seq<u32>, total: nat, color: nat)
    requires 1 <= |s| <= 4 && total == Total(Decode(s))
    ensures var q := s[0];
      Node(LOCAL_BUS + PhyId(q), color, LinkActive(q), SpeedCode(q), InitiatedReset(q), 0, false, 0, 0,
           seq(total, _ => None)) == Fresh(Decode(s), color)
  {
  }

  function Prepend(done: seq<SelfId>, rest: Option<seq<SelfId>>): Option<seq<SelfId>> {
    if rest.None? then None else Some(done + rest.value)
  }

  lemma PrependStep(done: seq<SelfId>, r: SelfId, rest: Option<seq<SelfId>>)
    ensures Prepend(done, Prepend([r], rest)) == Prepend(done + [r], rest)
    ensures Prepend([r], rest) == if rest.None? then None else Some([r] + rest.value)
  {
    if rest.Some? {
      assert done + ([r] + rest.value) == done + [r] + rest.value;
    }
  }

  lemma NoSequence(q: seq<u32>, n: nat, forest: seq<Tree>)
    requires q != [] && !exists h :: IsSequence(q, h)
    ensures Outcome(q, n, forest).None?
  {
    hide IsSequence;
    assert HeadLength(q) == 0;
  }

  lemma SequenceBounds(q: seq<u32>, n: nat)
    requires IsSequence(q, n)
    ensures 1 <= n <= 4 && n <= |q|
  {
  }

  lemma ShiftHangs(forest: seq<Tree>, r: SelfId, n: nat, last: bool)
    requires HangingF(forest, 0) && SizeF(forest) == n && Shift(forest, r, n, last).Some?
    ensures !last ==> HangingF(Shift(forest, r, n, last).value, 0)
  {
    ShiftSound(forest, r, n, last);
  }

  lemma RepeaterIs(r: SelfId)
    ensures Repeater(r) == (r.speed == SCODE_BETA && Parents(r) + Children(r) > 1)
  {
  }

  lemma StartFacts(before: seq<Node>, color: nat, sid: seq<u32>)
    ensures Records(sid) == Prepend([], Records(sid))
    ensures SizeF([]) == 0 && HangingF([], 0) && WiredF([]) && Roots([], |before|) == []
    ensures before == before + FlatF([], |before|, color, 0, 0)
    ensures Shifted(LastContender([]), |before|) == None && !BetaRepeaters([])
    ensures forall g: nat :: GapOf([], g) == g
  {
    if Records(sid).Some? {
      assert [] + Records(sid).value == Records(sid).value;
    }
  }

  lemma EndFacts(n: nat, forest: seq<Tree>, done: seq<SelfId>, before: seq<Node>, after: seq<Node>, color: nat)
    requires WiredF(forest) && after == before + FlatF(forest, |before|, color, 0, 0)
    ensures Outcome([], n, forest) == Some(forest) && Prepend(done, Records([])) == Some(done)
    ensures Built(before, after, color, forest) && |after| == |before| + SizeF(forest)
    ensures after[..|before|] == before
  {
    assert done + [] == done;
  }
}
