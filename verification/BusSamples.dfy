/** Buses on which the code does not do what one would expect. */
module BusSamples {
  import opened Basics
  import opened SelfIdPacket
  import opened BusTree
  import opened HopCount
  import opened NodeStore
  import opened BuildTree
  import opened BusOrientation
  import opened BusView

  function HeadReport(phy: nat): SelfId {
    SelfId(phy, true, 0, 0, false, 0, false, [Child, NotConnected, NotConnected])
  }

  function RelayReport(phy: nat): SelfId {
    SelfId(phy, true, 0, 0, false, 0, false, [Parent, Child, NotConnected])
  }

  // ---- a report that is not one tree ---------------------------------------

  /** A self-ID buffer that is accepted although nobody claims PHY 0, and fails the test. */
  lemma OrphansAreAccepted()
    ensures var leaf0, leaf1 := Tree(LeafReport(0), []), Tree(LeafReport(1), []);
      var sid := EncodeAll([LeafReport(0), LeafReport(1), HeadReport(2)]);
      && sid != [] && Outcome(sid, 0, []) == Some([leaf0, Tree(HeadReport(2), [leaf1])]) && !WholeReport(sid)
  {
    var rs := [LeafReport(0), LeafReport(1), HeadReport(2)];
    assert forall r | r in rs :: Encodable(r);
    OrphanParse();
    OneTreeIff(rs);
    hide EncodeAll, Records, Parse, ChildTotal, LeafReport, HeadReport;
    StreamRoundTrip(rs);
  }

  /** Every PHY that nobody claims keeps the index of its parent port as its colour, whatever
      the colour of the card: a later walk may take it for visited. */
  lemma OrphanKeepsPortIndex(sid: seq<u32>, before: seq<Node>, after: seq<Node>, color: nat, k: nat)
    requires sid != [] && Outcome(sid, 0, []).Some? && Built(before, after, color, Outcome(sid, 0, []).value)
    requires k < |Outcome(sid, 0, []).value| - 1
    ensures var i := Roots(Outcome(sid, 0, []).value, |before|)[k];
      i < |after| && after[i].color < |after[i].ports| && after[i].ports[after[i].color] == None
  {
    hide *;
    AcceptedHangs(sid);
    LowHangs(Outcome(sid, 0, []).value, k);
    BuiltOrphan(before, after, color, Outcome(sid, 0, []).value, k);
  }

  lemma AcceptedHangs(sid: seq<u32>)
    requires sid != [] && Outcome(sid, 0, []).Some?
    ensures Outcome(sid, 0, []).value != [] && RootedLast(Outcome(sid, 0, []).value)
  {
    hide Parse, Records, RootedLast, StreamF;
    OutcomeSize(sid, Tree(LeafReport(0), []));
    ParseSound(Records(sid).value, 0, []);
  }

  lemma BuiltOrphan(before: seq<Node>, after: seq<Node>, color: nat, f: seq<Tree>, k: nat)
    requires Built(before, after, color, f) && k < |f| && Parents(f[k].rec) == 1
    ensures var i := Roots(f, |before|)[k];
      i < |after| && after[i].color < |after[i].ports| && after[i].ports[after[i].color] == None
  {
    hide FlatF, Roots, RootNode, Parents, WiredAll, Start;
    var base := |before|;
    RootAt(f, base, color, 0, k);
    FixUpRoot(f[k], Start(f, base, k), color, 0);
    assert after[Roots(f, base)[k]] == FlatF(f, base, color, 0, 0)[Roots(f, base)[k] - base];
  }

  lemma LowHangs(f: seq<Tree>, k: nat)
    requires f != [] && RootedLast(f) && k < |f| - 1
    ensures Parents(f[k].rec) == 1
  {
    hide Parents, HangingF;
    var hung := f[..|f| - 1] + f[|f| - 1].kids;
    KidsHaveParent(hung, 0, k);
    assert hung[k] == f[k];
  }

  lemma {:induction false} RootAt(ts: seq<Tree>, base: nat, color: nat, owner: nat, k: nat)
    requires WiredF(ts) && k < |ts|
    ensures base <= Roots(ts, base)[k] < base + SizeF(ts) && Wired(ts[k])
    ensures FlatF(ts, base, color, owner, 0)[Roots(ts, base)[k] - base] == RootNode(ts[k], Start(ts, base, k), color, None)
  {
    hide RootNode, Linked, Size;
    assert WiredAll(ts[k]);
    RootsRange(ts, base, k);
    var head, rest := ts[0], ts[1..];
    if k > 0 {
      RootAt(rest, base + Size(head), color, owner, k - 1);
      hide Flat;
      var f, s := Flat(head, base, color, None), FlatF(rest, base + Size(head), color, owner, 0);
      var at := Roots(rest, base + Size(head))[k - 1] - (base + Size(head));
      assert rest[k - 1] == ts[k] && (f + s)[|f| + at] == s[at];
    } else {
      FirstRoot(head, base, color);
    }
  }

  lemma FirstRoot(t: Tree, base: nat, color: nat)
    requires WiredAll(t)
    ensures Flat(t, base, color, None)[Size(t) - 1] == RootNode(t, base, color, None)
  {
    hide RootNode, FlatF;
  }

  lemma OrphanParse()
    ensures var root, leaf0, leaf1 := HeadReport(2), Tree(LeafReport(0), []), Tree(LeafReport(1), []);
      Parse([LeafReport(0), LeafReport(1), root], 0, []) == Some([leaf0, Tree(root, [leaf1])])
  {
    var root := HeadReport(2);
    var leaf0, leaf1 := Tree(LeafReport(0), []), Tree(LeafReport(1), []);
    LeafCounts(0);
    LeafCounts(1);
    RootCounts(root);
    hide Count, Visible, Total, Children, Parents, LeafReport, HeadReport;
    LeafPhy();
    assert Shift([], LeafReport(0), 0, false) == Some([leaf0]) by {
      assert [][..0] + [Tree(LeafReport(0), [][0..])] == [leaf0];
    }
    assert Shift([leaf0], LeafReport(1), 1, false) == Some([leaf0, leaf1]) by {
      assert [leaf0][1..] == [] && [leaf0][..1] == [leaf0];
      assert [leaf0][..1] + [Tree(LeafReport(1), [leaf0][1..])] == [leaf0, leaf1];
    }
    assert Shift([leaf0, leaf1], root, 2, true) == Some([leaf0, Tree(root, [leaf1])]) by {
      assert [leaf0, leaf1][1..] == [leaf1] && [leaf0, leaf1][..1] == [leaf0];
      assert [leaf0, leaf1][..1] + [Tree(root, [leaf0, leaf1][1..])] == [leaf0, Tree(root, [leaf1])];
    }
    var rs := [LeafReport(0), LeafReport(1), root];
    assert rs[1..] == [LeafReport(1), root] && rs[1..][1..] == [root] && [root][1..] == [];
    assert Parse([root], 2, [leaf0, leaf1]) == Some([leaf0, Tree(root, [leaf1])]);
    assert Parse([LeafReport(1), root], 1, [leaf0]) == Some([leaf0, Tree(root, [leaf1])]);
  }

  lemma LeafPhy()
    ensures LeafReport(0).phy == 0 && LeafReport(1).phy == 1 && HeadReport(2).phy == 2
  {
  }

  lemma LeafCounts(phy: nat)
    ensures Children(LeafReport(phy)) == 0 && Parents(LeafReport(phy)) == 1 && Linked(LeafReport(phy)) == 0
  {
    var p := LeafReport(phy).ports;
    assert p[..2] == [Parent, NotConnected] && p[..2][..1] == [Parent] && [Parent][..0] == [] && p[..3] == p;
    assert Count([Parent], Parent) == 1 && Count([Parent], Child) == 0 && Count([Parent], Absent) == 0;
    assert Count(p[..2], Parent) == 1 && Count(p[..2], Child) == 0 && Count(p[..2], Absent) == 0;
  }

  lemma RootCounts(r: SelfId)
    requires r.ports == [Child, NotConnected, NotConnected]
    ensures Children(r) == 1 && Parents(r) == 0 && Linked(r) == 1
  {
    var p := r.ports;
    assert p[..2] == [Child, NotConnected] && p[..2][..1] == [Child] && [Child][..0] == [] && p[..3] == p;
    assert Count([Child], Parent) == 0 && Count([Child], Child) == 1 && Count([Child], Absent) == 0;
    assert Count(p[..2], Parent) == 0 && Count(p[..2], Child) == 1 && Count(p[..2], Absent) == 0;
  }

  // ---- a long bus ----------------------------------------------------------

  /** PHYs 0 to `n`, each hanging on the next. */
  function Line(n: nat): Tree {
    if n == 0 then Tree(LeafReport(0), []) else Tree(RelayReport(n), [Line(n - 1)])
  }

  function LineBus(n: nat): Tree
    requires n > 0
  {
    Tree(HeadReport(n), [Line(n - 1)])
  }

  lemma RelayCounts(r: SelfId)
    requires r.ports == [Parent, Child, NotConnected]
    ensures Children(r) == 1 && Parents(r) == 1 && Linked(r) == 1
  {
    var p := r.ports;
    assert p[..2] == [Parent, Child] && p[..2][..1] == [Parent] && [Parent][..0] == [] && p[..3] == p;
    assert Count([Parent], Parent) == 1 && Count([Parent], Child) == 0 && Count([Parent], Absent) == 0;
    assert Count(p[..2], Parent) == 1 && Count(p[..2], Child) == 1 && Count(p[..2], Absent) == 0;
  }

  lemma {:induction false} LineHangs(n: nat)
    ensures Hanging(Line(n), 0) && Size(Line(n)) == n + 1 && HangingF([Line(n)], 0) && SizeF([Line(n)]) == n + 1
  {
    hide Children, Parents;
    if n == 0 {
      LeafCounts(0);
    } else {
      LineHangs(n - 1);
      RelayCounts(RelayReport(n));
    }
    assert [Line(n)][1..] == [];
  }

  lemma {:induction false} LineReports(n: nat)
    requires n < 63
    ensures forall r | r in Stream(Line(n)) :: Encodable(r) && Trailing(r.ports)
  {
    var kids := Line(n).kids;
    if n > 0 {
      LineReports(n - 1);
      assert kids[1..] == [] && StreamF(kids) == Stream(kids[0]) + [];
    }
  }

  /** One child: one deeper, and the longest path ends at the node or lies below it. */
  lemma OneKid(t: Tree)
    requires |t.kids| == 1 && Linked(t.rec) == 1
    ensures Deepest(t) == Deepest(t.kids[0]) + 1 && Longest(t) == Max(Longest(t.kids[0]), Deepest(t))
  {
    hide Linked, Longest, Deepest, Branches;
    TreeFold(t);
    var s := Branches(t.kids, 1);
    assert s == [s[0]] && s[..0] == [];
    assert Fold(s[..0]) == Hop(-1, -1, 0);
  }

  lemma NoKid(t: Tree)
    requires t.kids == []
    ensures Deepest(t) == 0 && Longest(t) == 0
  {
  }

  lemma {:induction false} LineLength(n: nat)
    ensures Deepest(Line(n)) == n && Longest(Line(n)) == n
  {
    hide Deepest, Longest, Linked;
    if n == 0 {
      NoKid(Line(0));
    } else {
      RelayCounts(RelayReport(n));
      LineLength(n - 1);
      OneKid(Line(n));
    }
  }

  /** Buses of up to 63 PHYs in a line are reported, and their diameter is one less than their size. */
  lemma LineDiameter(n: nat)
    requires 0 < n < 63
    ensures Reportable(LineBus(n)) && IsDiameter(LineBus(n), n)
  {
    hide *;
    LineReportable(n);
    LineBusLength(n);
    LongestIsDiameter(LineBus(n));
  }

  lemma LineBusLength(n: nat)
    requires n > 0
    ensures Longest(LineBus(n)) == n
  {
    hide Deepest, Longest, Linked, Line;
    RootCounts(HeadReport(n));
    LineLength(n - 1);
    OneKid(LineBus(n));
  }

  lemma LineReportable(n: nat)
    requires 0 < n < 63
    ensures Reportable(LineBus(n))
  {
    hide Linked, Children, Parents, HangingF, Line, Trailing;
    var t := LineBus(n);
    RootCounts(t.rec);
    LineHangs(n - 1);
    LineReports(n - 1);
    HeadTrailing(n);
    assert t.kids == [Line(n - 1)];
    assert Stream(t) == Stream(Line(n - 1)) + [t.rec] by {
      assert t.kids[1..] == [] && StreamF(t.kids) == Stream(t.kids[0]) + [];
    }
  }

  lemma HeadTrailing(n: nat)
    ensures Trailing(HeadReport(n).ports)
  {
  }

  /** A bus with more than 16 PHYs in a line: the stored hop count is not its diameter. */
  lemma LongBusHops(n: nat)
    requires 16 <= n < 63
    ensures Reportable(LineBus(n)) && IsDiameter(LineBus(n), n) && Hops4(LineBus(n)) != n
  {
    hide *;
    LineDiameter(n);
    StoredHopsExact(LineBus(n), n);
  }
}
