/** Maximum transfer speeds: what report_found_node stores, against the slowest PHY on the
    path from the local node. */
module NodeSpeeds {
  import opened Basics
  import opened NodeStore
  import opened BuildTree
  import opened Orientation
  import opened TreeWalk
  import opened TreeUpdate
  import opened TreeMerge
  import opened TreeResult

  /** Node `i` with parent `u` (if any) carries the right speed and beta-path flag. */
  predicate Paced(a: seq<Node>, i: nat, u: Option<nat>) {
    i < |a| && var n, beta := a[i], a[i].phySpeed == SCODE_BETA;
      if u.None? then n.maxSpeed == n.phySpeed && n.bPath == beta
      else u.value < |a| && n.maxSpeed == Min(a[u.value].maxSpeed, n.phySpeed) && n.bPath == (a[u.value].bPath && beta)
  }

  predicate AllPaced(a: seq<Node>, o: Orient) { forall i | i in o :: Paced(a, i, ParentRef(o[i])) }

  // ---- the path from the top -----------------------------------------------

  ghost function PathTo(o: Orient, i: nat): (s: seq<nat>)
    requires Leveled(o) && i in o
    ensures s != [] && s[|s| - 1] == i
    ensures forall k | k in s :: k in o
    decreases Level(o[i])
  {
    if o[i].Top? then [i] else PathTo(o, o[i].peer) + [i]
  }

  /** `m` is the least PHY speed among `s`, `b` says that all of `s` are beta PHYs. */
  ghost predicate Slowest(a: seq<Node>, s: seq<nat>, m: nat, b: bool) {
    && (forall k | k in s :: k < |a| && m <= a[k].phySpeed)
    && (exists k | k in s :: k < |a| && a[k].phySpeed == m)
    && (b <==> forall k | k in s :: k < |a| && a[k].phySpeed == SCODE_BETA)
  }

  /** The stored speed of every node is that of the slowest PHY between it and the local node. */
  lemma {:induction false} PacedIsSlowest(a: seq<Node>, o: Orient, i: nat)
    requires Leveled(o) && AllPaced(a, o) && i in o
    ensures i < |a| && Slowest(a, PathTo(o, i), a[i].maxSpeed, a[i].bPath)
    decreases Level(o[i])
  {
    assert Paced(a, i, ParentRef(o[i]));
    if o[i].Hung? {
      var u := o[i].peer;
      PacedIsSlowest(a, o, u);
      SlowestAppend(a, PathTo(o, u), i, a[u].maxSpeed, a[u].bPath);
    }
  }

  lemma SlowestAppend(a: seq<Node>, s: seq<nat>, i: nat, m: nat, b: bool)
    requires Slowest(a, s, m, b) && i < |a|
    ensures Slowest(a, s + [i], Min(m, a[i].phySpeed), b && a[i].phySpeed == SCODE_BETA)
  {
    var t := s + [i];
    var k :| k in s && k < |a| && a[k].phySpeed == m;
    assert k in t && i in t;
  }

  // ---- the walk that reports found nodes -----------------------------------

  lemma {:induction false} WalkPaces(a: seq<Node>, o: Orient, order: seq<nat>, color: nat, i: nat)
    requires Present(a, o, order) && Distinct(order) && ParentsFirst(o, order)
    requires order != [] && (o[order[0]].Hung? ==> o[order[0]].peer !in order && o[order[0]].peer < |a|)
    requires i in order
    ensures Paced(VisitAll(a, o, order, color, ReportFound), i, ParentRef(o[i]))
  {
    var last, front := order[|order| - 1], order[..|order| - 1];
    assert last in order;
    var b, r := VisitAll(a, o, front, color, ReportFound), VisitAll(a, o, order, color, ReportFound);
    var u := ParentRef(o[last]);
    if |order| > 1 {
      assert order[|order| - 1] == last && o[last].Hung? && o[last].peer in front;
      assert o[last].peer in order;
    }
    assert last !in front;
    if i != last {
      assert i in front;
      FrontFirst(o, order);
      WalkPaces(a, o, front, color, i);
      ParentBefore(o, order, i);
    }
  }

  lemma FrontFirst(o: Orient, order: seq<nat>)
    requires ParentsFirst(o, order) && Distinct(order) && order != []
    ensures ParentsFirst(o, order[..|order| - 1]) && Distinct(order[..|order| - 1])
  {
    var front := order[..|order| - 1];
    forall m | 0 < m < |front| ensures front[m] in o && o[front[m]].Hung? && o[front[m]].peer in front[..m] {
      assert front[..m] == order[..m] && front[m] == order[m];
    }
  }

  /** The last node visited is nobody's parent among the earlier ones. */
  lemma ParentBefore(o: Orient, order: seq<nat>, i: nat)
    requires Distinct(order) && ParentsFirst(o, order) && |order| > 1 && i in order[..|order| - 1] && i in o
    requires order[0] in o && (o[order[0]].Hung? ==> o[order[0]].peer !in order)
    ensures o[i].Hung? ==> o[i].peer != order[|order| - 1]
  {
    var m :| 0 <= m < |order| - 1 && order[m] == i;
    var last := order[|order| - 1];
    if m == 0 {
      assert last in order;
    } else {
      assert last !in order[..m];
    }
  }

  // ---- speeds during an update ---------------------------------------------

  /** Parent of a created node while the trees are being compared. */
  function BornParent(d: Diff, s: Progress, y: nat): Option<nat>
    requires y in d.o1
  {
    if d.o1[y].Hung? then Some(Survivor(s, d.o1[y].peer)) else None
  }

  ghost predicate BornPaced(d: Diff, s: Progress, a: seq<Node>) {
    forall y | y in s.born :: y in d.o1 && Paced(a, y, BornParent(d, s, y))
  }

  predicate SamePace(a: seq<Node>, b: seq<Node>, i: nat) {
    i < |a| && i < |b| && a[i].maxSpeed == b[i].maxSpeed && a[i].bPath == b[i].bPath && a[i].phySpeed == b[i].phySpeed
  }

  lemma PacedSame(a: seq<Node>, b: seq<Node>, i: nat, u: Option<nat>)
    requires Paced(a, i, u) && SamePace(a, b, i) && (u.Some? ==> SamePace(a, b, u.value))
    ensures Paced(b, i, u)
  {
  }

  /** Steps that create no nodes keep the speeds of those created before. */
  lemma PaceStep(d: Diff, s: Progress, s': Progress, a: seq<Node>, b: seq<Node>)
    requires BornPaced(d, s, a) && ProgressOk(d, s) && s'.born == s.born && |b| == |a|
    requires s.v.Keys <= s'.v.Keys && (forall j | j in s.v :: s'.v[j] == s.v[j])
    requires forall y | y in s.born :: y !in s'.v
    requires forall i :: 0 <= i < |a| ==> SamePace(a, b, i)
    ensures BornPaced(d, s', b)
  {
    forall y | y in s'.born ensures y in d.o1 && Paced(b, y, BornParent(d, s', y)) {
      BornParentStays(d, s, s', y);
      PacedSame(a, b, y, BornParent(d, s, y));
    }
  }

  lemma BornParentStays(d: Diff, s: Progress, s': Progress, y: nat)
    requires ProgressOk(d, s) && y in s.born
    requires s.v.Keys <= s'.v.Keys && (forall j | j in s.v :: s'.v[j] == s.v[j])
    requires forall y | y in s.born :: y !in s'.v
    ensures y in d.o1 && BornParent(d, s', y) == BornParent(d, s, y)
  {
    assert BornBelow(d, s, y);
    OutcastsApart(d, s);
  }

  lemma MarkPaces(a: seq<Node>, i: nat, j: nat, color: nat)
    requires i < |a| && j < |a|
    ensures var b := a[i := Refreshed(a[i], a[j], color)]; b[j].maxSpeed == a[j].maxSpeed
    ensures var b := a[i := Refreshed(a[i], a[j], color)][j := a[j].(color := color)];
      i != j ==> forall k :: 0 <= k < |a| ==> SamePace(a, b, k)
  {
  }

  lemma LosePaces(a: seq<Node>, o: Orient, order: seq<nat>, color: nat, i: nat, ports: seq<Option<nat>>, c: seq<Node>)
    requires Present(a, o, order) && i < |a|
    requires var b := VisitAll(a, o, order, color, ReportLost); c == b[i := b[i].(ports := ports)]
    ensures |c| == |a| && forall k :: 0 <= k < |a| ==> SamePace(a, c, k)
  {
    forall k | 0 <= k < |a| ensures SamePace(a, c, k) {
      VisitAllFacts(a, o, order, color, ReportLost, k);
    }
  }

  /** Adopting a subtree: the walk paces its nodes, starting from the old node above them. */
  lemma BearPaces(d: Diff, s: Progress, s': Progress, a: seq<Node>, b: seq<Node>, g: Orient, order: seq<nat>, y: nat)
    requires ValidDiff(d) && ProgressOk(d, s) && BornPaced(d, s, a) && Leveled(d.o1) && y in d.o1 && d.o1[y].Hung?
    requires s.cur < |a| && s.cur !in d.o1 && d.o1[y].peer in s.v && s.v[d.o1[y].peer] == s.cur
    requires |b| == |a| && forall k :: 0 <= k < |a| ==> SamePace(a, b, k)
    requires g == Graft(d.o1, y, s.cur) && Leveled(g) && Walk(g, y, order, |order|)
    requires forall i :: i in order <==> i in d.o1 && Under(d.o1, y, i)
    requires forall i | i in order :: i in g && i < |b| && i !in s.v && i !in s.born
    requires s' == s.(port := s.port + 1, born := s.born + Below(d.o1, y))
    ensures BornPaced(d, s', VisitAll(b, g, order, d.color, ReportFound))
  {
    hide *;
    PresentIs(b, g, order);
    var c := VisitAll(b, g, order, d.color, ReportFound);
    WalkShape(g, y, order);
    SetFacts(d, s);
    TopIsBelow(d, y);
    GraftPeer(d.o1, y, s.cur);
    forall k | k in s'.born ensures k in d.o1 && Paced(c, k, BornParent(d, s', k)) {
      if k in order {
        WalkPaces(b, g, order, d.color, k);
        GraftParent(d, s, s', y, k);
      } else {
        assert k in s.born;
        BornParentStays(d, s, s', k);
        KeptPace(d, s, a, b, c, g, order, k);
      }
    }
    PacedIntro(d, s', c);
  }

  lemma PacedIntro(d: Diff, s: Progress, a: seq<Node>)
    requires forall y | y in s.born :: y in d.o1 && Paced(a, y, BornParent(d, s, y))
    ensures BornPaced(d, s, a)
  {
  }

  lemma WalkShape(o: Orient, root: nat, order: seq<nat>)
    requires Leveled(o) && Walk(o, root, order, |order|)
    ensures Distinct(order) && ParentsFirst(o, order) && order != [] && order[0] == root
  {
  }

  lemma GraftPeer(o: Orient, y: nat, top: nat)
    requires Leveled(o) && y in o && o[y].Hung? && top !in o
    ensures y in Graft(o, y, top) && Graft(o, y, top)[y].Hung? && Graft(o, y, top)[y].peer == top
  {
    assert Under(o, y, y);
  }

  lemma GraftParent(d: Diff, s: Progress, s': Progress, y: nat, k: nat)
    requires Leveled(d.o1) && y in d.o1 && d.o1[y].Hung? && k in d.o1 && Under(d.o1, y, k)
    requires d.o1[y].peer in s.v && s.v[d.o1[y].peer] == s.cur && s'.v == s.v && s.cur !in d.o1
    requires forall i | i in d.o1 && Under(d.o1, y, i) :: i !in s.v
    ensures var g := Graft(d.o1, y, s.cur); k in g && ParentRef(g[k]) == BornParent(d, s', k)
  {
    if k != y {
      assert Under(d.o1, y, d.o1[k].peer);
    }
  }

  lemma KeptPace(d: Diff, s: Progress, a: seq<Node>, b: seq<Node>, c: seq<Node>, g: Orient, order: seq<nat>, k: nat)
    requires ValidDiff(d) && ProgressOk(d, s) && BornPaced(d, s, a) && k in s.born && k !in order
    requires |b| == |a| && forall k :: 0 <= k < |a| ==> SamePace(a, b, k)
    requires forall i | i in order :: i in g && i < |b| && i !in s.v && i !in s.born && i in d.o1
    requires c == VisitAll(b, g, order, d.color, ReportFound)
    ensures k in d.o1 && Paced(c, k, BornParent(d, s, k))
  {
    hide *;
    BornParentIs(d, s, a, k);
    DisjointTrees(d, s);
    SetFacts(d, s);
    var u := BornParent(d, s, k).value;
    VisitAllFacts(b, g, order, d.color, ReportFound, k);
    VisitAllFacts(b, g, order, d.color, ReportFound, u);
    PaceAfter(a, b, c, k);
    PaceAfter(a, b, c, u);
    PacedSame(a, c, k, Some(u));
  }

  lemma PaceAfter(a: seq<Node>, b: seq<Node>, c: seq<Node>, k: nat)
    requires SamePace(a, b, k) && |c| == |b| && k < |b| && c[k] == b[k]
    ensures SamePace(a, c, k)
  {
  }

  lemma BornParentIs(d: Diff, s: Progress, a: seq<Node>, k: nat)
    requires ValidDiff(d) && ProgressOk(d, s) && BornPaced(d, s, a) && k in s.born
    ensures k in d.o1 && k < |a| && BornParent(d, s, k).Some? && Paced(a, k, BornParent(d, s, k))
    ensures var u := BornParent(d, s, k).value; u < |a| && (u in s.born || u in s.w)
  {
    assert BornBelow(d, s, k);
    OutcastsApart(d, s);
  }

  /** After the update every surviving node is paced. */
  lemma SurvivorsPaced(d: Diff, s: Progress, a: seq<Node>)
    requires ValidDiff(d) && ProgressOk(d, s) && Finished(d, s) && StoreOk(d, s, a) && BornPaced(d, s, a)
    requires AllPaced(d.a, d.o0)
    requires forall x | x in s.w.Keys + s.born :: StandsFor(s, x) in d.o1
    ensures AllPaced(a, SurvivorOrient(d, s))
  {
    hide StoreOk, ProgressOk, BornPaced;
    SetFacts(d, s);
    var o := SurvivorOrient(d, s);
    forall x | x in o ensures Paced(a, x, ParentRef(o[x])) {
      if x in s.w {
        MatchedPaced(d, s, a, x);
      } else {
        BornIsPaced(d, s, a, x);
      }
    }
  }

  lemma BornIsPaced(d: Diff, s: Progress, a: seq<Node>, x: nat)
    requires BornPaced(d, s, a) && x in s.born && x in d.o1 && x !in s.w
    ensures Paced(a, x, ParentRef(SurvivorHang(s, d.o1[x])))
  {
  }

  lemma MatchedPaced(d: Diff, s: Progress, a: seq<Node>, x: nat)
    requires ValidDiff(d) && ProgressOk(d, s) && Finished(d, s) && StoreOk(d, s, a) && x in s.w && AllPaced(d.a, d.o0)
    ensures s.w[x] in d.o1 && Paced(a, x, ParentRef(SurvivorHang(s, d.o1[s.w[x]])))
  {
    PairFacts(d, s, x);
    StoreAt(d, s, a, x);
    assert PairHangs(d, s, x) && Paced(d.a, x, ParentRef(d.o0[x]));
    if x == d.l0 {
      assert d.o0[x].Top? && d.o1[s.w[x]].Top?;
    } else {
      var u := d.o0[x].peer;
      PairFacts(d, s, u);
      StoreAt(d, s, a, u);
    }
  }

  // ---- the same, one lemma per step of the code ----------------------------

  lemma StillPaced(d: Diff, s: Progress, s': Progress, a: seq<Node>)
    requires ValidDiff(d) && BornPaced(d, s, a) && ProgressOk(d, s) && s'.born == s.born
    requires s.v.Keys <= s'.v.Keys && (forall j | j in s.v :: s'.v[j] == s.v[j])
    requires forall j | j in s'.v && j !in s.v :: j !in s.born
    ensures BornPaced(d, s', a)
  {
    hide ValidDiff, ProgressOk, BornPaced;
    SetFacts(d, s);
    PaceStep(d, s, s', a, a);
  }

  lemma MarkedPaced(d: Diff, s: Progress, s': Progress, a: seq<Node>, i: nat)
    requires ValidDiff(d) && BornPaced(d, s, a) && ProgressOk(d, s) && i in s.w && i < |a| && s.w[i] < |a|
    requires s'.born == s.born && s'.v == s.v
    ensures BornPaced(d, s', a[i := Refreshed(a[i], a[s.w[i]], d.color)][s.w[i] := a[s.w[i]].(color := d.color)])
  {
    hide *;
    SetFacts(d, s);
    PairFacts(d, s, i);
    DisjointTrees(d, s);
    MarkPaces(a, i, s.w[i], d.color);
    PaceStep(d, s, s', a, a[i := Refreshed(a[i], a[s.w[i]], d.color)][s.w[i] := a[s.w[i]].(color := d.color)]);
  }

  lemma DroppedPaced(d: Diff, s: Progress, s': Progress, a: seq<Node>, order: seq<nat>, i: nat, ports: seq<Option<nat>>)
    requires ValidDiff(d) && BornPaced(d, s, a) && Busy(d, s) && s'.born == s.born && s'.v == s.v
    requires Present(a, d.o0, order) && i < |a|
    ensures var b := VisitAll(a, d.o0, order, d.color, ReportLost); BornPaced(d, s', b[i := b[i].(ports := ports)])
  {
    hide *;
    BusyFacts(d, s);
    SetFacts(d, s);
    var b := VisitAll(a, d.o0, order, d.color, ReportLost);
    var c := b[i := b[i].(ports := ports)];
    LosePaces(a, d.o0, order, d.color, i, ports, c);
    PaceStep(d, s, s', a, c);
  }

  lemma MovedPaces(a: seq<Node>, i: nat, p: nat, y: nat, up: nat)
    requires i < |a| && p < |a[i].ports| && y < |a| && i != y && up < |a[y].ports|
    ensures |Moved(a, i, p, y, up)| == |a| && forall k :: 0 <= k < |a| ==> SamePace(a, Moved(a, i, p, y, up), k)
  {
  }

  lemma AdoptedPaced(d: Diff, s: Progress, s': Progress, a: seq<Node>, b: seq<Node>, g: Orient, order: seq<nat>, y: nat)
    requires ValidDiff(d) && Busy(d, s) && StoreOk(d, s, a) && BornPaced(d, s, a)
    requires s.port < |d.a[s.cur].ports| && Leveled(d.o1)
    requires d.a[s.cur].ports[s.port] == None && d.a[s.w[s.cur]].ports[s.port] == Some(y)
    requires y in d.o1 && d.o1[y].Hung? && d.o1[y].peer == s.w[s.cur]
    requires s.cur < |a| && s.port < |a[s.cur].ports| && y < |a| && s.cur != y && d.o1[y].port < |a[y].ports|
    requires b == Moved(a, s.cur, s.port, y, d.o1[y].port) && g == Graft(d.o1, y, s.cur) && Leveled(g)
    requires Walk(g, y, order, |order|)
    requires forall i :: i in order <==> i in g && Under(g, y, i)
    requires Present(b, g, order)
    requires s' == s.(port := s.port + 1, born := s.born + Below(d.o1, y))
    ensures BornPaced(d, s', VisitAll(b, g, order, d.color, ReportFound))
  {
    hide *;
    BusyFacts(d, s);
    PairFacts(d, s, s.cur);
    DisjointTrees(d, s);
    BearPort(d, s, y);
    GraftFacts(d.o1, y, s.cur);
    MovedPaces(a, s.cur, s.port, y, d.o1[y].port);
    PresentIs(b, g, order);
    BearPaces(d, s, s', a, b, g, order, y);
  }

  lemma NobodyBorn(d: Diff, s: Progress, a: seq<Node>)
    requires s == StartProgress(d)
    ensures BornPaced(d, s, a)
  {
  }
}
