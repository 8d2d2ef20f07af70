/** The card's tree against the bus it was reported: seats for PHY ids. */
module BusView {
  import opened Basics
  import opened SelfIdPacket
  import opened BusTree
  import opened HopCount
  import opened NodeStore
  import opened BuildTree
  import opened Orientation
  import opened BusOrientation
  import opened TreeWalk
  import opened TreeUpdate
  import opened TreeMerge
  import opened TreeResult
  import opened NodeSpeeds

  /** Node `n` has the reported properties of `m`, with ports translated to seats. */
  ghost predicate Alike(n: Node, m: Node, seat: seq<nat>, base: nat) {
    && n.id == m.id && n.linkOn == m.linkOn && n.initiatedReset == m.initiatedReset && n.maxHops == m.maxHops
    && |n.ports| == |m.ports|
    && forall p :: 0 <= p < |n.ports| ==> SeatPort(n.ports[p], m.ports[p], seat, base)
  }

  predicate SeatPort(x: Option<nat>, y: Option<nat>, seat: seq<nat>, base: nat) {
    if y.None? then x.None? else base <= y.value < base + |seat| && x == Some(seat[y.value - base])
  }

  /** The card's nodes are the bus `t`: PHY `k` is node `seat[k]`, and wherever two PHYs are
      connected (as `t` lays them out from index `base` on), so are their nodes. */
  ghost predicate Depicts(a: seq<Node>, seat: seq<nat>, t: Tree, base: nat)
    requires WiredAll(t)
  {
    && |seat| == Size(t) && Distinct(seat)
    && forall k | 0 <= k < |seat| :: seat[k] < |a| && Alike(a[seat[k]], Flat(t, base, 0, None)[k], seat, base)
  }

  // ---- a freshly built tree ------------------------------------------------

  lemma {:induction false} FlatColors(ts: seq<Tree>, base: nat, color: nat, owner: nat, k: nat)
    requires WiredF(ts) && ProperF(ts) && k < SizeF(ts)
    ensures FlatF(ts, base, color, owner, |ts|)[k].color == color
    decreases ts
  {
    hide Depth4, Hops4, Links, Parents;
    var t := ts[0];
    var n := SizeF(t.kids);
    if k < n {
      FlatColors(t.kids, base, color, base + n, k);
    } else if k > n {
      FlatColors(ts[1..], base + Size(t), color, owner, k - n - 1);
    }
  }

  lemma BusColors(t: Tree, base: nat, color: nat, k: nat)
    requires WiredAll(t) && ProperBus(t) && k < Size(t)
    ensures Flat(t, base, color, None)[k].color == color
  {
    hide Depth4, Hops4, Links;
    if k < SizeF(t.kids) {
      FlatColors(t.kids, base, color, base + SizeF(t.kids), k);
    }
  }

  /** The colour does not influence anything else. */
  lemma {:induction false} FlatRecolor(ts: seq<Tree>, base: nat, c1: nat, c2: nat, owner: nat, linked: nat, k: nat)
    requires WiredF(ts) && k < SizeF(ts)
    ensures var n, m := FlatF(ts, base, c1, owner, linked)[k], FlatF(ts, base, c2, owner, linked)[k];
      n == m.(color := n.color)
    decreases ts
  {
    hide Depth4, Hops4, Links, Linked;
    var t := ts[0];
    var s := SizeF(t.kids);
    if k < s {
      FlatRecolor(t.kids, base, c1, c2, base + s, Linked(t.rec), k);
    } else if k > s {
      FlatRecolor(ts[1..], base + Size(t), c1, c2, owner, if linked > 0 then linked - 1 else 0, k - s - 1);
    }
  }

  lemma BusRecolor(t: Tree, base: nat, c1: nat, c2: nat, k: nat)
    requires WiredAll(t) && k < Size(t)
    ensures var n, m := Flat(t, base, c1, None)[k], Flat(t, base, c2, None)[k]; n == m.(color := n.color)
  {
    hide Depth4, Hops4, Links, Linked;
    if k < SizeF(t.kids) {
      FlatRecolor(t.kids, base, c1, c2, base + SizeF(t.kids), Linked(t.rec), k);
    }
  }

  /** The new tree as seen from PHY `l`. */
  ghost function FreshOrient(t: Tree, base: nat, l: nat): Orient
    requires ProperBus(t) && l < Size(t)
  {
    if Leveled(BusOrient(t, base)) then Towards(BusOrient(t, base), base + l) else map[]
  }

  lemma BuiltIs(before: seq<Node>, after: seq<Node>, color: nat, t: Tree)
    requires Built(before, after, color, [t])
    ensures WiredAll(t) && after == before + Flat(t, |before|, color, None)
  {
    hide Flat, WiredAll, Size;
    var base := |before|;
    assert [t][0] == t && [t][1..] == [];
    var rest := FlatF([t][1..], base + Size(t), color, 0, 0);
    assert rest == [];
    assert FlatF([t], base, color, 0, 0) == Flat(t, base, color, None) + rest == Flat(t, base, color, None);
  }

  lemma FreshTree(before: seq<Node>, after: seq<Node>, color: nat, t: Tree, l: nat)
    requires ProperBus(t) && WiredAll(t) && after == before + Flat(t, |before|, color, None) && l < Size(t)
    ensures var o, base := FreshOrient(t, |before|, l), |before|;
      && Oriented(after, o, base + l) && Leveled(o)
      && (forall i :: i in o <==> base <= i < base + Size(t))
      && (forall i | i in o :: i < |after| && after[i].color == color)
  {
    hide *;
    FreshOriented(before, after, color, t, l);
    FreshColors(before, after, color, t);
  }

  lemma FreshOriented(before: seq<Node>, after: seq<Node>, color: nat, t: Tree, l: nat)
    requires ProperBus(t) && WiredAll(t) && after == before + Flat(t, |before|, color, None) && l < Size(t)
    ensures var o, base := FreshOrient(t, |before|, l), |before|;
      Oriented(after, o, base + l) && Leveled(o) && forall i :: i in o <==> base <= i < base + Size(t)
  {
    hide *;
    FlatSeg(before, Flat(t, |before|, color, None), after);
    BusOriented(after, t, |before|, color);
    FreshTowards(after, t, |before|, l);
  }

  lemma FreshTowards(a: seq<Node>, t: Tree, base: nat, l: nat)
    requires ProperBus(t) && l < Size(t) && Oriented(a, BusOrient(t, base), base + Size(t) - 1)
    ensures var o := FreshOrient(t, base, l);
      Oriented(a, o, base + l) && Leveled(o) && forall i :: i in o <==> base <= i < base + Size(t)
  {
    hide *;
    var o := BusOrient(t, base);
    BusKeys(t, base);
    OrientedLeveled(a, o, base + Size(t) - 1);
    TowardsOriented(a, o, base + Size(t) - 1, base + l);
    OrientedLeveled(a, Towards(o, base + l), base + l);
    FreshOrientIs(t, base, l);
  }

  lemma FreshColors(before: seq<Node>, after: seq<Node>, color: nat, t: Tree)
    requires ProperBus(t) && WiredAll(t) && after == before + Flat(t, |before|, color, None)
    ensures forall i | |before| <= i < |before| + Size(t) :: i < |after| && after[i].color == color
  {
    hide *;
    var base := |before|;
    forall i | base <= i < base + Size(t) ensures i < |after| && after[i].color == color {
      BusColors(t, base, color, i - base);
      assert after[i] == Flat(t, base, color, None)[i - base];
    }
  }

  lemma BusKeys(t: Tree, base: nat)
    requires ProperBus(t)
    ensures Size(t) > 0 && forall i :: i in BusOrient(t, base) <==> base <= i < base + Size(t)
  {
  }

  lemma FlatSeg(before: seq<Node>, s: seq<Node>, after: seq<Node>)
    requires after == before + s
    ensures Seg(after, |before|, s)
  {
  }

  lemma FreshOrientIs(t: Tree, base: nat, l: nat)
    requires ProperBus(t) && l < Size(t) && Leveled(BusOrient(t, base)) && base + l in BusOrient(t, base)
    ensures FreshOrient(t, base, l) == Towards(BusOrient(t, base), base + l)
  {
  }

  /** Seats of a tree that was just built. */
  function FreshSeats(n: nat, base: nat): (s: seq<nat>)
    ensures |s| == n && forall k :: 0 <= k < n ==> s[k] == base + k
  {
    seq(n, k requires 0 <= k => base + k)
  }

  /** All links of a bus stay inside it. */
  lemma LinksInside(a: seq<Node>, o: Orient, top: nat, base: nat, n: nat, i: nat, p: nat)
    requires Oriented(a, o, top) && (forall i :: i in o <==> base <= i < base + n)
    requires i in o && p < |a[i].ports| && a[i].ports[p].Some?
    ensures base <= a[i].ports[p].value < base + n
  {
    assert NodeOk(a, o, i) && UpOk(a, o, i) && DownOk(a, o, i, p);
    assert a[i].ports[p].value in o;
  }

  /** If the nodes at the seats have kept their ports up to renaming by `f`, they depict the bus. */
  lemma DepictIntro(before: seq<Node>, built: seq<Node>, color: nat, t: Tree, l: nat, a: seq<Node>, seat: seq<nat>)
    requires ProperBus(t) && WiredAll(t) && built == before + Flat(t, |before|, color, None) && l < Size(t)
    requires |seat| == Size(t) && Distinct(seat)
    requires forall k | 0 <= k < |seat| :: seat[k] < |a| && SeatOk(a[seat[k]], built[|before| + k], seat, |before|)
    ensures Depicts(a, seat, t, |before|)
  {
    hide *;
    var base := |before|;
    FreshTree(before, built, color, t, l);
    forall k | 0 <= k < |seat| ensures Alike(a[seat[k]], Flat(t, base, 0, None)[k], seat, base) {
      BusRecolor(t, base, 0, color, k);
      assert built[base + k] == Flat(t, base, color, None)[k];
      var m := built[base + k];
      forall p | 0 <= p < |m.ports| && m.ports[p].Some?
        ensures base <= m.ports[p].value < base + |seat|
      {
        LinksInside(built, FreshOrient(t, base, l), base + l, base, Size(t), base + k, p);
      }
      AlikeIntro(a[seat[k]], m, Flat(t, base, 0, None)[k], seat, base);
    }
    DepictsIs(a, seat, t, base);
  }

  lemma DepictsIs(a: seq<Node>, seat: seq<nat>, t: Tree, base: nat)
    requires WiredAll(t) && |seat| == Size(t) && Distinct(seat)
    requires forall k | 0 <= k < |seat| :: seat[k] < |a| && Alike(a[seat[k]], Flat(t, base, 0, None)[k], seat, base)
    ensures Depicts(a, seat, t, base)
  {
  }

  lemma AlikeIntro(n: Node, m: Node, m': Node, seat: seq<nat>, base: nat)
    requires SeatOk(n, m, seat, base) && m' == m.(color := m'.color)
    requires forall p | 0 <= p < |m.ports| && m.ports[p].Some? :: base <= m.ports[p].value < base + |seat|
    ensures Alike(n, m', seat, base)
  {
  }

  /** Like Alike, but without saying that links stay inside. */
  predicate SeatOk(n: Node, m: Node, seat: seq<nat>, base: nat) {
    && n.id == m.id && n.linkOn == m.linkOn && n.initiatedReset == m.initiatedReset && n.maxHops == m.maxHops
    && |n.ports| == |m.ports|
    && forall p :: 0 <= p < |n.ports| ==>
      (m.ports[p].None? ==> n.ports[p].None?)
      && (m.ports[p].Some? && base <= m.ports[p].value < base + |seat| ==> n.ports[p] == Some(seat[m.ports[p].value - base]))
  }

  // ---- first tree: everything is reported found ----------------------------

  lemma FoundDepicts(before: seq<Node>, built: seq<Node>, color: nat, t: Tree, l: nat, o: Orient, order: seq<nat>, c: nat)
    requires ProperBus(t) && WiredAll(t) && built == before + Flat(t, |before|, color, None) && l < Size(t)
    requires Present(built, o, order)
    ensures Depicts(VisitAll(built, o, order, c, ReportFound), FreshSeats(Size(t), |before|), t, |before|)
  {
    hide Flat, ProperBus, WiredAll, Size;
    var a, base := VisitAll(built, o, order, c, ReportFound), |before|;
    var seat := FreshSeats(Size(t), base);
    forall k | 0 <= k < |seat| ensures seat[k] < |a| && SeatOk(a[seat[k]], built[base + k], seat, base) {
      VisitAllFacts(built, o, order, c, ReportFound, base + k);
    }
    DepictIntro(before, built, color, t, l, a, seat);
  }

  lemma FoundPaced(a: seq<Node>, o: Orient, top: nat, order: seq<nat>, c: nat)
    requires Oriented(a, o, top) && Leveled(o) && Walk(o, top, order, |order|)
    requires forall i :: i in order <==> i in o && Under(o, top, i)
    requires Present(a, o, order)
    ensures var b := VisitAll(a, o, order, c, ReportFound);
      && AllPaced(b, o) && Oriented(b, o, top) && (forall i | i in o :: b[i].color == c)
  {
    var b := VisitAll(a, o, order, c, ReportFound);
    assert o[top].Top?;
    forall i | i in o ensures i in order && Paced(b, i, ParentRef(o[i])) {
      AllUnderTop(a, o, top, i);
      WalkShape(o, top, order);
      WalkPaces(a, o, order, c, i);
    }
    forall i | i in o ensures b[i].ports == a[i].ports && b[i].color == c {
      VisitAllFacts(a, o, order, c, ReportFound, i);
    }
    OrientedByPorts(a, b, o, top);
  }

  // ---- later trees: the old one is updated ---------------------------------

  /** The comparison that a reset with report `t` leads to. */
  ghost function ResetDiff(before: seq<Node>, color: nat, o0: Orient, l0: nat, t: Tree, l: nat): Diff
    requires ProperBus(t) && WiredAll(t) && l < Size(t)
  {
    Diff(before + Flat(t, |before|, color, None), o0, l0, FreshOrient(t, |before|, l), |before| + l, (color + 1) % 256)
  }

  lemma ResetDiffValid(before: seq<Node>, color: nat, o0: Orient, l0: nat, t: Tree, l: nat, treeColor: nat)
    requires ProperBus(t) && WiredAll(t) && l < Size(t) && color < 256
    requires Oriented(before, o0, l0) && Leveled(o0)
    requires (forall i | i in o0 :: before[i].color == treeColor) && treeColor != (color + 1) % 256
    ensures ValidDiff(ResetDiff(before, color, o0, l0, t, l))
  {
    hide *;
    var d := ResetDiff(before, color, o0, l0, t, l);
    ResetDiffIs(before, color, o0, l0, t, l);
    FreshTree(before, d.a, color, t, l);
    InStore(before, o0, l0);
    OrientedByPorts(before, d.a, o0, l0);
    ValidDiffIs(d);
  }

  lemma ResetDiffIs(before: seq<Node>, color: nat, o0: Orient, l0: nat, t: Tree, l: nat)
    requires ProperBus(t) && WiredAll(t) && l < Size(t)
    ensures var d := ResetDiff(before, color, o0, l0, t, l);
      && d.a == before + Flat(t, |before|, color, None) && d.o0 == o0 && d.l0 == l0
      && d.o1 == FreshOrient(t, |before|, l) && d.l1 == |before| + l && d.color == (color + 1) % 256
  {
  }

  lemma InStore(a: seq<Node>, o: Orient, top: nat)
    requires Oriented(a, o, top)
    ensures top in o && forall i | i in o :: i < |a|
  {
  }

  lemma ValidDiffIs(d: Diff)
    requires Oriented(d.a, d.o0, d.l0) && Oriented(d.a, d.o1, d.l1) && Leveled(d.o0) && Leveled(d.o1)
    requires d.o0.Keys !! d.o1.Keys
    requires forall i | i in d.o0 || i in d.o1 :: i < |d.a| && d.a[i].color != d.color
    ensures ValidDiff(d)
  {
  }

  function SurvivorSeats(s: Progress, n: nat, base: nat): (r: seq<nat>)
    ensures |r| == n && forall k :: 0 <= k < n ==> r[k] == Survivor(s, base + k)
  {
    if n == 0 then [] else SurvivorSeats(s, n - 1, base) + [Survivor(s, base + n - 1)]
  }

  lemma SeatsDistinct(d: Diff, s: Progress, n: nat, base: nat)
    requires ValidDiff(d) && ProgressOk(d, s) && Finished(d, s) && forall i :: i in d.o1 <==> base <= i < base + n
    ensures Distinct(SurvivorSeats(s, n, base))
  {
    hide ValidDiff, ProgressOk, Finished;
    StandsForSurvivor(d, s);
    var r := SurvivorSeats(s, n, base);
    forall i, j | 0 <= i < j < |r| ensures r[i] != r[j] {
      assert StandsFor(s, r[i]) == base + i && StandsFor(s, r[j]) == base + j;
    }
  }

  lemma UpdateDepicts(before: seq<Node>, color: nat, o0: Orient, l0: nat, t: Tree, l: nat, s: Progress, a: seq<Node>)
    requires ProperBus(t) && WiredAll(t) && l < Size(t)
    requires var d := ResetDiff(before, color, o0, l0, t, l);
      ValidDiff(d) && ProgressOk(d, s) && Finished(d, s) && Transplanted(d, s, a)
    ensures Depicts(a, SurvivorSeats(s, Size(t), |before|), t, |before|)
  {
    hide *;
    var d, base := ResetDiff(before, color, o0, l0, t, l), |before|;
    ResetDiffIs(before, color, o0, l0, t, l);
    var seat := SurvivorSeats(s, Size(t), base);
    FreshTree(before, d.a, color, t, l);
    SeatsDistinct(d, s, Size(t), base);
    forall k | 0 <= k < |seat| ensures seat[k] < |a| && SeatOk(a[seat[k]], d.a[base + k], seat, base) {
      assert base + k in d.o1;
      MirrorOf(d, s, a, base + k);
      SeatFromMirror(d, s, a, base + k, seat, base);
    }
    DepictIntro(before, d.a, color, t, l, a, seat);
  }

  lemma SeatFromMirror(d: Diff, s: Progress, a: seq<Node>, j: nat, seat: seq<nat>, base: nat)
    requires j < |d.a| && Mirrors(d, s, a, j)
    requires forall k :: 0 <= k < |seat| ==> seat[k] == Survivor(s, base + k)
    ensures Survivor(s, j) < |a| && SeatOk(a[Survivor(s, j)], d.a[j], seat, base)
  {
    hide Survivor;
    var n, m := a[Survivor(s, j)], d.a[j];
    forall p | 0 <= p < |n.ports| && m.ports[p].Some? && base <= m.ports[p].value < base + |seat|
      ensures n.ports[p] == Some(seat[m.ports[p].value - base])
    {
      assert n.ports[p] == SurvivorRef(s, m.ports[p]);
      var k := m.ports[p].value - base;
      assert seat[k] == Survivor(s, base + k);
    }
  }

  lemma MirrorOf(d: Diff, s: Progress, a: seq<Node>, j: nat)
    requires Transplanted(d, s, a) && j in d.o1
    ensures j < |d.a| && Mirrors(d, s, a, j)
  {
    hide Mirrors, Oriented;
  }

  /** The update leaves a paced tree in one colour again. */
  lemma UpdateValid(d: Diff, s: Progress, a: seq<Node>)
    requires ValidDiff(d) && ProgressOk(d, s) && Finished(d, s) && StoreOk(d, s, a) && Transplanted(d, s, a)
    requires BornPaced(d, s, a) && AllPaced(d.a, d.o0)
    ensures forall x | x in s.w.Keys + s.born :: StandsFor(s, x) in d.o1
    ensures var o := SurvivorOrient(d, s);
      Oriented(a, o, d.l0) && Leveled(o) && AllPaced(a, o) && forall i | i in o :: i < |a| && a[i].color == d.color
  {
    var o := SurvivorOrient(d, s);
    SurvivorsPaced(d, s, a);
    StandsForSurvivor(d, s);
    hide ProgressOk, Finished, StoreOk, BornPaced, AllPaced, ValidDiff;
    OrientedLeveled(a, o, d.l0);
    forall i | i in o ensures a[i].color == d.color {
      assert Mirrors(d, s, a, StandsFor(s, i));
    }
  }

  // ---- the hop count of the root -------------------------------------------

  lemma RootHops(a: seq<Node>, seat: seq<nat>, t: Tree, base: nat)
    requires WiredAll(t) && Depicts(a, seat, t, base)
    ensures seat != [] && seat[|seat| - 1] < |a| && a[seat[|seat| - 1]].maxHops == Hops4(t)
  {
    hide Depth4, Hops4, Links;
    var k := |seat| - 1;
    assert Alike(a[seat[k]], Flat(t, base, 0, None)[k], seat, base);
  }

  // ---- the card between resets ---------------------------------------------

  ghost predicate TreeOk(a: seq<Node>, o: Orient, l: nat, color: nat) {
    Oriented(a, o, l) && Leveled(o) && AllPaced(a, o) && forall i | i in o :: a[i].color == color
  }

  lemma TreeOkIs(a: seq<Node>, o: Orient, l: nat, color: nat)
    requires TreeOk(a, o, l, color)
    ensures Oriented(a, o, l) && Leveled(o) && AllPaced(a, o) && l in o && l < |a|
    ensures forall i | i in o :: i < |a| && a[i].color == color
  {
  }

  lemma TreeUnvisited(a: seq<Node>, o: Orient, l: nat, treeColor: nat, color: nat)
    requires Oriented(a, o, l) && Leveled(o) && treeColor != color
    requires forall i | i in o :: i < |a| && a[i].color == treeColor
    ensures Unvisited(a, o, l, color)
  {
  }

  lemma WholeTreeWalked(a: seq<Node>, o: Orient, l: nat, order: seq<nat>)
    requires Oriented(a, o, l) && Leveled(o) && Walk(o, l, order, |order|)
    requires forall i :: i in order <==> i in o && Under(o, l, i)
    ensures Distinct(order) && (set i | i in order) == o.Keys
  {
    forall i | i in o ensures i in order {
      AllUnderTop(a, o, l, i);
    }
  }

  /** The seat of a PHY id, if any. */
  function SeatOf(seat: seq<nat>, k: Option<nat>): Option<nat> {
    if k.Some? && k.value < |seat| then Some(seat[k.value]) else None
  }

  lemma TreeOkIntro(a: seq<Node>, o: Orient, l: nat, color: nat)
    requires Oriented(a, o, l) && Leveled(o) && AllPaced(a, o) && forall i | i in o :: i < |a| && a[i].color == color
    ensures TreeOk(a, o, l, color)
  {
  }

  /** Adding nodes does not touch the tree. */
  lemma TreeKept(a: seq<Node>, b: seq<Node>, o: Orient, l: Option<nat>, color: nat)
    requires |a| <= |b| && b[..|a|] == a && (l.Some? ==> TreeOk(a, o, l.value, color))
    ensures l.Some? ==> TreeOk(b, o, l.value, color)
  {
    assert forall i :: 0 <= i < |a| ==> b[i] == b[..|a|][i];
    if l.Some? {
      OrientedByPorts(a, b, o, l.value);
    }
  }

  lemma PrefixPaced(a: seq<Node>, b: seq<Node>, o: Orient)
    requires AllPaced(a, o) && |a| <= |b| && forall i :: 0 <= i < |a| ==> b[i] == a[i]
    ensures AllPaced(b, o)
  {
    forall i | i in o ensures Paced(b, i, ParentRef(o[i])) {
      assert Paced(a, i, ParentRef(o[i]));
    }
  }

  predicate InTree(r: Option<nat>, base: nat, n: nat) { r.Some? ==> base <= r.value < base + n }

  lemma InTreeIs(r: Option<nat>, base: nat, n: nat)
    ensures InTree(r, base, n) <==> (r.Some? ==> base <= r.value < base + n)
  {
  }

  lemma LocalSurvives(d: Diff, s: Progress)
    requires ValidDiff(d) && ProgressOk(d, s)
    ensures Survivor(s, d.l1) == d.l0
  {
  }

  lemma FreshSeatAt(n: nat, base: nat, l: nat)
    requires l < n
    ensures |FreshSeats(n, base)| == n && FreshSeats(n, base)[l] == base + l
  {
  }

  lemma TreeInStore(a: seq<Node>, o: Orient, l: nat, color: nat)
    requires TreeOk(a, o, l, color)
    ensures forall i | i in o :: i < |a|
  {
  }

  lemma FreshRefs(rs: seq<SelfId>, base: nat)
    requires rs != []
    ensures var seat := FreshSeats(|rs|, base);
      && Some(base + |rs| - 1) == Some(seat[|rs| - 1])
      && Shifted(LastContender(rs), base) == SeatOf(seat, LastContender(rs))
  {
  }

  lemma RefsInTree(rs: seq<SelfId>, base: nat, root: Option<nat>, irm: Option<nat>)
    requires rs != [] && root == Some(base + |rs| - 1) && irm == Shifted(LastContender(rs), base)
    ensures InTree(root, base, |rs|) && InTree(irm, base, |rs|)
  {
  }

  lemma NextRefs(rs: seq<SelfId>, base: nat, s: Progress)
    requires rs != []
    ensures var seat := SurvivorSeats(s, |rs|, base);
      && SurvivorRef(s, Some(base + |rs| - 1)) == Some(seat[|rs| - 1])
      && SurvivorRef(s, Shifted(LastContender(rs), base)) == SeatOf(seat, LastContender(rs))
      && forall k :: 0 <= k < |rs| ==> Survivor(s, base + k) == seat[k]
  {
  }

  lemma OutcomeSize(sid: seq<u32>, t: Tree)
    requires sid != []
    ensures Outcome(sid, 0, []).Some? ==> Records(sid).Some? && Records(sid).value != []
    ensures Size(t) > 0
  {
  }

  // ---- from the bus to the card --------------------------------------------

  /** A bus that fits the address space, of PHYs that report absent ports last. */
  predicate Reportable(t: Tree) {
    IsBus(t) && Size(t) <= 63 && forall r | r in Stream(t) :: Encodable(r) && Trailing(r.ports)
  }

  /** Round trip: the self-ID quadlets of any bus are accepted, read back as that bus, and pass
      the test for whole buses. */
  lemma ReportRoundTrip(t: Tree)
    requires Reportable(t)
    ensures var sid := EncodeAll(Stream(t));
      && sid != [] && Records(sid) == Some(Stream(t)) && Outcome(sid, 0, []) == Some([t])
      && ProperBus(t) && WiredAll(t) && WholeBus(Stream(t))
  {
    hide Stream, IsBus, EncodeAll, Records, Parse, ProperBus, LinksAll, Trailing, ChildTotal;
    StreamRoundTrip(Stream(t));
    ParseBus(t);
    forall r | r in Stream(t) ensures LinksAll(r) {
      TrailingLinks(r);
    }
    BusProper(t);
    OneTreeIff(Stream(t));
  }

  /** The tree of the root PHY of an accepted report; any tree if there is none. */
  function ReportedTree(sid: seq<u32>): Tree {
    var f := Outcome(sid, 0, []);
    if f.Some? && f.value != [] then f.value[|f.value| - 1] else Tree(LeafReport(0), [])
  }

  /** The report is accepted and has an entry for the local PHY. */
  predicate LocalReported(sid: seq<u32>, nodeId: nat) {
    Outcome(sid, 0, []).Some? && nodeId % 64 < |Records(sid).value|
  }

  lemma LocalReportedIs(sid: seq<u32>, nodeId: nat)
    ensures Outcome(sid, 0, []).Some? ==> Records(sid).Some?
    ensures LocalReported(sid, nodeId) <==> Outcome(sid, 0, []).Some? && nodeId % 64 < |Records(sid).value|
  {
  }

  /** The node built last has the hop count of the last tree. */
  lemma LastTreeHops(sid: seq<u32>, before: seq<Node>, after: seq<Node>, color: nat)
    requires sid != [] && Outcome(sid, 0, []).Some? && Built(before, after, color, Outcome(sid, 0, []).value)
    ensures |after| > 0 && after[|after| - 1].maxHops == Hops4(ReportedTree(sid))
  {
    hide *;
    OutcomeNonEmpty(sid);
    ReportedTreeIs(sid);
    LastRoot(before, after, color, Outcome(sid, 0, []).value);
  }

  lemma ReportedTreeIs(sid: seq<u32>)
    requires Outcome(sid, 0, []).Some? && Outcome(sid, 0, []).value != []
    ensures var f := Outcome(sid, 0, []).value; ReportedTree(sid) == f[|f| - 1]
  {
  }

  lemma LastRoot(before: seq<Node>, after: seq<Node>, color: nat, f: seq<Tree>)
    requires f != [] && Built(before, after, color, f)
    ensures |after| > 0 && after[|after| - 1].maxHops == Hops4(f[|f| - 1])
  {
    hide FlatF, WiredAll, SizeF, RootNode, Hops4;
    var low, t, base := f[..|f| - 1], f[|f| - 1], |before|;
    assert f == low + [t];
    JoinForest(low, t, base, color);
    RootNodeHops(t, base + SizeF(low), color);
  }

  lemma RootNodeHops(t: Tree, base: nat, color: nat)
    requires WiredAll(t)
    ensures Wired(t) && RootNode(t, base, color, None).maxHops == Hops4(t)
  {
    hide Links, Hops4, Depth4;
  }

  lemma OutcomeNonEmpty(sid: seq<u32>)
    requires sid != [] && Outcome(sid, 0, []).Some?
    ensures Outcome(sid, 0, []).value != []
  {
    hide Parse, Records;
    OutcomeSize(sid, Tree(LeafReport(0), []));
    ParseNonEmpty(Records(sid).value, 0, []);
  }

  lemma {:induction false} ParseNonEmpty(rs: seq<SelfId>, n: nat, forest: seq<Tree>)
    requires (rs != [] || forest != []) && Parse(rs, n, forest).Some?
    ensures Parse(rs, n, forest).value != []
    decreases |rs|
  {
    hide Children, Parents;
    if rs != [] {
      ParseNonEmpty(rs[1..], n + 1, Shift(forest, rs[0], n, |rs| == 1).value);
    }
  }

  /** An accepted report that passes the test for whole buses. */
  predicate WholeReport(sid: seq<u32>) {
    Outcome(sid, 0, []).Some? ==> Records(sid).Some? && WholeBus(Records(sid).value)
  }

  lemma WholeReportIs(sid: seq<u32>)
    requires sid != [] && WholeReport(sid)
    ensures Outcome(sid, 0, []).Some? ==>
      var t := ReportedTree(sid);
      Outcome(sid, 0, []) == Some([t]) && ProperBus(t) && WiredAll(t) && Records(sid) == Some(Stream(t)) && Size(t) > 0
  {
    hide Records, Parse, WholeBus, ProperBus;
    OutcomeSize(sid, ReportedTree(sid));
    if Outcome(sid, 0, []).Some? {
      WholeBusIff(Records(sid).value);
    }
  }

  /** The gap count is picked from the root's hop count: it is the diameter exactly if that
      fits the 4-bit field. */
  lemma RootHopsAreDiameter(a: seq<Node>, seat: seq<nat>, t: Tree, base: nat, d: nat)
    requires WiredAll(t) && Depicts(a, seat, t, base) && IsDiameter(t, d)
    ensures seat != [] && seat[|seat| - 1] < |a|
    ensures a[seat[|seat| - 1]].maxHops == d <==> d <= 15
  {
    hide *;
    RootHops(a, seat, t, base);
    StoredHopsExact(t, d);
  }

  /** A PHY with nothing but its parent connected. */
  function LeafReport(phy: nat): SelfId {
    SelfId(phy, true, 0, 0, false, 0, false, [Parent, NotConnected, NotConnected])
  }
}
