/** What a bus reset reports: one event per node that was or is on the bus. */
module BusEvents {
  import opened Basics
  import opened BusTree
  import opened NodeStore
  import opened Orientation
  import opened BusOrientation
  import opened TreeWalk
  import opened TreeUpdate
  import opened TreeMerge
  import opened TreeResult
  import opened BusView

  /** The event that fits node `x`: it disappeared, it came, or it stayed and link or reset
      state tell which.  PHY `k` of the reported bus is node `seat[k]` and looks like `news[k]`. */
  ghost predicate EventRight(a0: seq<Node>, oldTree: set<nat>, seat: seq<nat>, news: seq<Node>, e: (nat, Event))
    requires |news| == |seat|
  {
    || (e.0 in oldTree && e.0 !in seat && e.1 == Destroyed)
    || exists k :: 0 <= k < |seat| && seat[k] == e.0 && SeatEvent(a0, oldTree, e, news[k])
  }

  ghost predicate SeatEvent(a0: seq<Node>, oldTree: set<nat>, e: (nat, Event), n: Node) {
    if e.0 in oldTree then e.0 < |a0| && e.1 == MatchEvent(a0[e.0], n) else e.1 == Created
  }

  /** Exactly one event, the right one, for every old node and every node of the reported bus. */
  ghost predicate ResetEvents(a0: seq<Node>, oldTree: set<nat>, seat: seq<nat>, news: seq<Node>, ev: seq<(nat, Event)>) {
    && |news| == |seat|
    && (forall m, n | 0 <= m < n < |ev| :: ev[m].0 != ev[n].0)
    && (forall e | e in ev :: EventRight(a0, oldTree, seat, news, e))
    && (forall x | x in oldTree :: x in EventNodes(ev))
    && (forall k | 0 <= k < |seat| :: seat[k] in EventNodes(ev))
  }

  // ---- an update -----------------------------------------------------------

  lemma UpdateEventRight(before: seq<Node>, color: nat, o0: Orient, l0: nat, t: Tree, l: nat, s: Progress, e: (nat, Event))
    requires ProperBus(t) && WiredAll(t) && l < Size(t) && Oriented(before, o0, l0)
    requires var d := ResetDiff(before, color, o0, l0, t, l); ValidDiff(d) && ProgressOk(d, s) && Finished(d, s) && EventFits(d, s, e)
    requires forall i :: i in FreshOrient(t, |before|, l) <==> |before| <= i < |before| + Size(t)
    ensures EventRight(before, o0.Keys, SurvivorSeats(s, Size(t), |before|), Flat(t, |before|, color, None), e)
  {
    hide *;
    var d, base := ResetDiff(before, color, o0, l0, t, l), |before|;
    var seat, news := SurvivorSeats(s, Size(t), base), Flat(t, base, color, None);
    ResetDiffIs(before, color, o0, l0, t, l);
    SetFacts(d, s);
    InStore(before, o0, l0);
    FitsIs(d, s, e);
    var x := e.0;
    if x in s.w {
      PairFacts(d, s, x);
      var k := s.w[x] - base;
      SurvivorIs(s, s.w[x]);
      SeatRight(before, o0.Keys, seat, news, e, k);
    } else if x in s.lost {
      forall k | 0 <= k < |seat| ensures seat[k] != x {
        SurvivorIs(s, base + k);
        InverseAt(d, s, base + k);
      }
      GoneRight(before, o0.Keys, seat, news, e);
    } else {
      SurvivorIs(s, x);
      SeatRight(before, o0.Keys, seat, news, e, x - base);
    }
  }

  lemma FitsIs(d: Diff, s: Progress, e: (nat, Event))
    requires ValidDiff(d) && ProgressOk(d, s) && EventFits(d, s, e)
    ensures e.0 in s.w || e.0 in s.lost || e.0 in s.born
    ensures e.0 in s.w ==> e.0 < |d.a| && s.w[e.0] < |d.a| && e.1 == MatchEvent(d.a[e.0], d.a[s.w[e.0]])
    ensures e.0 in s.lost ==> e.0 !in s.w && e.0 in d.o0 && e.1 == Destroyed
    ensures e.0 !in s.w && e.0 !in s.lost ==> e.0 in s.born && e.0 in d.o1 && e.0 !in s.v && e.1 == Created
    ensures e.0 in s.born ==> e.0 !in d.o0
  {
    SetFacts(d, s);
    hide Pairing, Outcasts;
  }

  lemma SurvivorIs(s: Progress, j: nat)
    ensures Survivor(s, j) == if j in s.v then s.v[j] else j
  {
  }

  lemma InverseAt(d: Diff, s: Progress, j: nat)
    requires ProgressOk(d, s)
    ensures j in s.v ==> s.v[j] in s.w
  {
  }

  lemma SeatRight(a0: seq<Node>, oldTree: set<nat>, seat: seq<nat>, news: seq<Node>, e: (nat, Event), k: nat)
    requires |news| == |seat| && k < |seat| && seat[k] == e.0
    requires if e.0 in oldTree then e.0 < |a0| && e.1 == MatchEvent(a0[e.0], news[k]) else e.1 == Created
    ensures EventRight(a0, oldTree, seat, news, e)
  {
    assert SeatEvent(a0, oldTree, e, news[k]);
  }

  lemma GoneRight(a0: seq<Node>, oldTree: set<nat>, seat: seq<nat>, news: seq<Node>, e: (nat, Event))
    requires |news| == |seat| && e.0 in oldTree && e.1 == Destroyed && forall k | 0 <= k < |seat| :: seat[k] != e.0
    ensures EventRight(a0, oldTree, seat, news, e)
  {
  }

  /** The events of an update are those of the reset. */
  lemma UpdateEvents(before: seq<Node>, color: nat, o0: Orient, l0: nat, t: Tree, l: nat, s: Progress, a: seq<Node>,
                     ev: seq<(nat, Event)>)
    requires ProperBus(t) && WiredAll(t) && l < Size(t) && Oriented(before, o0, l0)
    requires var d := ResetDiff(before, color, o0, l0, t, l);
      ValidDiff(d) && ProgressOk(d, s) && Finished(d, s) && Transplanted(d, s, a) && EventsOk(d, s, ev)
    ensures ResetEvents(before, o0.Keys, SurvivorSeats(s, Size(t), |before|), Flat(t, |before|, color, None), ev)
  {
    hide *;
    var d, base := ResetDiff(before, color, o0, l0, t, l), |before|;
    var seat, news := SurvivorSeats(s, Size(t), base), Flat(t, base, color, None);
    ResetDiffIs(before, color, o0, l0, t, l);
    FreshTree(before, d.a, color, t, l);
    EventsOkIs(d, s, ev);
    forall e | e in ev ensures EventRight(before, o0.Keys, seat, news, e) {
      UpdateEventRight(before, color, o0, l0, t, l, s, e);
    }
    forall x | x in o0.Keys ensures x in EventNodes(ev) {
      OldAllSeen(d, s, x);
    }
    forall k | 0 <= k < |seat| ensures seat[k] in EventNodes(ev) {
      NewAllSeen(d, s, base + k);
      SurvivorIs(s, base + k);
      InverseAt(d, s, base + k);
    }
    ResetIntro(before, o0.Keys, seat, news, ev);
  }

  lemma EventsOkIs(d: Diff, s: Progress, ev: seq<(nat, Event)>)
    requires EventsOk(d, s, ev) && Finished(d, s)
    ensures forall m, n | 0 <= m < n < |ev| :: ev[m].0 != ev[n].0
    ensures forall e | e in ev :: EventFits(d, s, e)
    ensures forall x | x in s.w || x in s.lost || x in s.born :: x in EventNodes(ev)
  {
    hide EventFits;
  }

  lemma ResetIntro(a0: seq<Node>, oldTree: set<nat>, seat: seq<nat>, news: seq<Node>, ev: seq<(nat, Event)>)
    requires |news| == |seat| && forall m, n | 0 <= m < n < |ev| :: ev[m].0 != ev[n].0
    requires forall e | e in ev :: EventRight(a0, oldTree, seat, news, e)
    requires forall x | x in oldTree :: x in EventNodes(ev)
    requires forall k | 0 <= k < |seat| :: seat[k] in EventNodes(ev)
    ensures ResetEvents(a0, oldTree, seat, news, ev)
  {
    hide EventRight, EventNodes;
  }

  // ---- a tree that is lost or found as a whole -----------------------------

  lemma WalkEventIs(order: seq<nat>, cb: Callback, e: (nat, Event))
    requires e in Events(order, cb)
    ensures e.0 in order && e.1 == EventOf(cb)
  {
  }

  lemma WalkHasEvent(order: seq<nat>, cb: Callback, x: nat)
    requires x in order
    ensures x in EventNodes(Events(order, cb))
  {
    var m :| 0 <= m < |order| && order[m] == x;
    assert Events(order, cb)[m] == (x, EventOf(cb));
  }

  lemma WalkDistinct(order: seq<nat>, cb: Callback)
    requires Distinct(order)
    ensures var ev := Events(order, cb); forall m, n | 0 <= m < n < |ev| :: ev[m].0 != ev[n].0
  {
  }

  lemma LostAll(a0: seq<Node>, oldTree: set<nat>, order: seq<nat>)
    requires Distinct(order) && forall i :: i in order <==> i in oldTree
    ensures ResetEvents(a0, oldTree, [], [], Events(order, ReportLost))
  {
    hide Events, EventRight, EventNodes, Distinct, ResetEvents;
    var ev := Events(order, ReportLost);
    WalkDistinct(order, ReportLost);
    forall e | e in ev ensures EventRight(a0, oldTree, [], [], e) {
      WalkEventIs(order, ReportLost, e);
      GoneRight(a0, oldTree, [], [], e);
    }
    forall x | x in oldTree ensures x in EventNodes(ev) {
      WalkHasEvent(order, ReportLost, x);
    }
    ResetIntro(a0, oldTree, [], [], ev);
  }

  lemma FoundRightAll(a0: seq<Node>, seat: seq<nat>, news: seq<Node>, base: nat, ev: seq<(nat, Event)>)
    requires |news| == |seat| && forall k | 0 <= k < |seat| :: seat[k] == base + k
    requires forall e | e in ev :: base <= e.0 < base + |seat| && e.1 == Created
    ensures forall e | e in ev :: EventRight(a0, {}, seat, news, e)
  {
    forall e | e in ev ensures EventRight(a0, {}, seat, news, e) {
      SeatRight(a0, {}, seat, news, e, e.0 - base);
    }
  }

  lemma FoundAll(a0: seq<Node>, base: nat, n: nat, news: seq<Node>, order: seq<nat>)
    requires Distinct(order) && |news| == n && forall i :: i in order <==> base <= i < base + n
    ensures ResetEvents(a0, {}, FreshSeats(n, base), news, Events(order, ReportFound))
  {
    hide Events, EventRight, EventNodes, Distinct, ResetEvents, FreshSeats;
    var ev, seat := Events(order, ReportFound), FreshSeats(n, base);
    WalkDistinct(order, ReportFound);
    forall e | e in ev ensures base <= e.0 < base + n && e.1 == Created {
      WalkEventIs(order, ReportFound, e);
    }
    FoundRightAll(a0, seat, news, base, ev);
    forall k | 0 <= k < |seat| ensures seat[k] in EventNodes(ev) {
      WalkHasEvent(order, ReportFound, seat[k]);
    }
    ResetIntro(a0, {}, seat, news, ev);
  }

  /** First the old tree is lost, then another one is found. */
  lemma LostThenFound(a0: seq<Node>, a1: seq<Node>, oldTree: set<nat>, seat: seq<nat>, news: seq<Node>,
                      lost: seq<(nat, Event)>, found: seq<(nat, Event)>)
    requires ResetEvents(a0, oldTree, [], [], lost) && ResetEvents(a1, {}, seat, news, found)
    requires forall x | x in seat :: x !in oldTree
    ensures ResetEvents(a0, oldTree, seat, news, lost + found)
  {
    var ev := lost + found;
    forall e | e in lost ensures e.0 in oldTree && e.1 == Destroyed {
      assert EventRight(a0, oldTree, [], [], e);
    }
    forall e | e in found ensures e.0 in seat {
      assert EventRight(a1, {}, seat, news, e);
    }
    forall e | e in ev ensures EventRight(a0, oldTree, seat, news, e) {
      if e in lost {
        GoneRight(a0, oldTree, seat, news, e);
      } else {
        FoundRight(a0, a1, oldTree, seat, news, e);
      }
    }
    hide EventRight, EventNodes;
    forall x | x in oldTree ensures x in EventNodes(ev) {
      NodesAppend(lost, found, x);
    }
    forall k | 0 <= k < |seat| ensures seat[k] in EventNodes(ev) {
      NodesAppend(lost, found, seat[k]);
    }
    forall m, n | 0 <= m < n < |ev| ensures ev[m].0 != ev[n].0 {
      DistinctEvents(lost, found, oldTree, seat, m, n);
    }
    ResetIntro(a0, oldTree, seat, news, ev);
  }

  lemma FoundRight(a0: seq<Node>, a1: seq<Node>, oldTree: set<nat>, seat: seq<nat>, news: seq<Node>, e: (nat, Event))
    requires |news| == |seat| && EventRight(a1, {}, seat, news, e) && forall x | x in seat :: x !in oldTree
    ensures EventRight(a0, oldTree, seat, news, e)
  {
    var k :| 0 <= k < |seat| && seat[k] == e.0 && SeatEvent(a1, {}, e, news[k]);
    assert seat[k] in seat;
    SeatRight(a0, oldTree, seat, news, e, k);
  }

  lemma NodesAppend(a: seq<(nat, Event)>, b: seq<(nat, Event)>, x: nat)
    ensures x in EventNodes(a + b) <==> x in EventNodes(a) || x in EventNodes(b)
  {
    if x in EventNodes(a) {
      var e :| e in a && e.0 == x;
      assert e in a + b;
    }
    if x in EventNodes(b) {
      var e :| e in b && e.0 == x;
      assert e in a + b;
    }
  }

  lemma DistinctEvents(lost: seq<(nat, Event)>, found: seq<(nat, Event)>, oldTree: set<nat>, seat: seq<nat>, m: nat, n: nat)
    requires m < n < |lost| + |found| && forall x | x in seat :: x !in oldTree
    requires (forall e | e in lost :: e.0 in oldTree) && (forall e | e in found :: e.0 in seat)
    requires forall i, j | 0 <= i < j < |lost| :: lost[i].0 != lost[j].0
    requires forall i, j | 0 <= i < j < |found| :: found[i].0 != found[j].0
    ensures (lost + found)[m].0 != (lost + found)[n].0
  {
    if m < |lost| <= n {
      assert lost[m] in lost && found[n - |lost|] in found;
    }
  }

  /** Colours do not matter for events. */
  lemma EventsRecolor(a0: seq<Node>, oldTree: set<nat>, seat: seq<nat>, t: Tree, base: nat, c1: nat, c2: nat, ev: seq<(nat, Event)>)
    requires WiredAll(t) && ResetEvents(a0, oldTree, seat, Flat(t, base, c1, None), ev)
    ensures ResetEvents(a0, oldTree, seat, Flat(t, base, c2, None), ev)
  {
    hide Flat;
    var x, y := Flat(t, base, c1, None), Flat(t, base, c2, None);
    forall e | e in ev ensures EventRight(a0, oldTree, seat, y, e) {
      assert EventRight(a0, oldTree, seat, x, e);
      if !(e.0 in oldTree && e.0 !in seat && e.1 == Destroyed) {
        var k :| 0 <= k < |seat| && seat[k] == e.0 && SeatEvent(a0, oldTree, e, x[k]);
        BusRecolor(t, base, c1, c2, k);
        SeatRight(a0, oldTree, seat, y, e, k);
      }
    }
  }

  lemma NoEvents(a0: seq<Node>)
    ensures ResetEvents(a0, {}, [], [], [])
  {
  }

  /** The nodes of the card's tree, and those that go when it is given up. */
  function TreeNodes(local: Option<nat>, o: Orient): set<nat> { if local.Some? then o.Keys else {} }

  function LostNodes(before: Option<nat>, after: Option<nat>, o: Orient): set<nat> {
    if before.Some? && after.None? then o.Keys else {}
  }

  lemma TreeNodesAre(local: Option<nat>, o: Orient)
    ensures TreeNodes(local, o) == if local.Some? then o.Keys else {}
    ensures LostNodes(local, None, o) == TreeNodes(local, o) && LostNodes(local, local, o) == {}
  {
  }

  /** New nodes are none of the old ones. */
  lemma FreshApart(seat: seq<nat>, n: nat, base: nat, o: Orient, l: Option<nat>)
    requires seat == FreshSeats(n, base) && (l.Some? ==> forall i | i in o :: i < base)
    ensures forall x | x in seat :: x !in TreeNodes(l, o)
  {
  }

  /** The events of a whole reset: those of an update, or those of a lost tree and a found one. */
  lemma AdoptedEvents(a0: seq<Node>, a1: seq<Node>, local: Option<nat>, now: Option<nat>, o: Orient, seat: seq<nat>, t: Tree,
                      built: nat, gone: seq<(nat, Event)>, found: seq<(nat, Event)>)
    requires WiredAll(t) && (local.Some? ==> forall i | i in o :: i < |a1|)
    requires now.None? ==> seat == FreshSeats(Size(t), |a1|) && ResetEvents(a0, LostNodes(local, now, o), [], [], gone)
    requires now.Some? ==> now == local && a1 == a0 && gone == []
    requires ResetEvents(a1, TreeNodes(now, o), seat, Flat(t, |a1|, built, None), found)
    ensures ResetEvents(a0, TreeNodes(local, o), seat, Flat(t, |a1|, 0, None), gone + found)
  {
    hide ResetEvents, Flat, FreshSeats, WiredAll, Size;
    var news := Flat(t, |a1|, built, None);
    if now.None? {
      FreshApart(seat, Size(t), |a1|, o, local);
      LostThenFound(a0, a1, TreeNodes(local, o), seat, news, gone, found);
    } else {
      assert gone + found == found;
    }
    EventsRecolor(a0, TreeNodes(local, o), seat, t, |a1|, built, 0, gone + found);
  }

  /** The hypothesis of update_tree, for a card and a reported bus. */
  ghost predicate CompatibleReport(nodes: seq<Node>, color: nat, o: Orient, l0: nat, t: Tree, l: nat) {
    ProperBus(t) && WiredAll(t) && l < Size(t) ==> Compatible(ResetDiff(nodes, color, o, l0, t, l))
  }

  lemma CompatibleIs(nodes: seq<Node>, color: nat, o: Orient, l0: nat, t: Tree, l: nat)
    requires CompatibleReport(nodes, color, o, l0, t, l) && ProperBus(t) && WiredAll(t) && l < Size(t)
    ensures Compatible(ResetDiff(nodes, color, o, l0, t, l))
  {
  }
}
