/** What update_tree guarantees when it is finished. */
module TreeResult {
  import opened Basics
  import opened NodeStore
  import opened Orientation
  import opened TreeWalk
  import opened TreeUpdate
  import opened TreeMerge

  // ---- one event per node --------------------------------------------------

  ghost function EventNodes(ev: seq<(nat, Event)>): set<nat> { set e | e in ev :: e.0 }

  ghost predicate EventFits(d: Diff, s: Progress, e: (nat, Event)) {
    || (e.0 in s.marked && e.0 in s.w && e.0 < |d.a| && s.w[e.0] < |d.a| && e.1 == MatchEvent(d.a[e.0], d.a[s.w[e.0]]))
    || (e.0 in s.lost && e.1 == Destroyed)
    || (e.0 in s.born && e.1 == Created)
  }

  ghost predicate EventsOk(d: Diff, s: Progress, ev: seq<(nat, Event)>) {
    && (forall m, n :: 0 <= m < n < |ev| ==> ev[m].0 != ev[n].0)
    && (forall e | e in ev :: EventFits(d, s, e))
    && EventNodes(ev) == s.marked + s.lost + s.born
  }

  /** Adding events for nodes that had none. */
  lemma EventsGrow(d: Diff, s: Progress, s': Progress, ev: seq<(nat, Event)>, more: seq<(nat, Event)>)
    requires EventsOk(d, s, ev)
    requires s.marked <= s'.marked && s.lost <= s'.lost && s.born <= s'.born
    requires s.w.Keys <= s'.w.Keys && forall i | i in s.w :: s'.w[i] == s.w[i]
    requires forall m, n :: 0 <= m < n < |more| ==> more[m].0 != more[n].0
    requires forall e | e in more :: EventFits(d, s', e)
    requires EventNodes(more) !! s.marked + s.lost + s.born
    requires s'.marked + s'.lost + s'.born == s.marked + s.lost + s.born + EventNodes(more)
    ensures EventsOk(d, s', ev + more)
  {
    var all := ev + more;
    forall m, n | 0 <= m < n < |all| ensures all[m].0 != all[n].0 {
      if m < |ev| <= n {
        assert all[m] in ev && all[n] in more;
        assert all[m].0 in EventNodes(ev) && all[n].0 in EventNodes(more);
      }
    }
    forall e | e in all ensures EventFits(d, s', e) {
      assert e in ev ==> EventFits(d, s, e);
    }
    assert EventNodes(all) == EventNodes(ev) + EventNodes(more);
  }

  lemma WalkEvents(order: seq<nat>, cb: Callback)
    requires Distinct(order)
    ensures var more := Events(order, cb);
      && (forall m, n :: 0 <= m < n < |more| ==> more[m].0 != more[n].0)
      && EventNodes(more) == set i | i in order
      && (forall e | e in more :: e.0 in order && e.1 == EventOf(cb))
  {
    var more := Events(order, cb);
    forall i | i in order ensures i in EventNodes(more) {
      var m :| 0 <= m < |order| && order[m] == i;
      assert more[m] == (i, EventOf(cb));
      assert more[m] in more;
    }
  }

  // ---- the surviving tree --------------------------------------------------

  /** The node that stands for new node `j` afterwards. */
  function Survivor(s: Progress, j: nat): nat { if j in s.v then s.v[j] else j }

  function SurvivorRef(s: Progress, r: Option<nat>): Option<nat> {
    if r.None? then None else Some(Survivor(s, r.value))
  }

  /** The survivor of `j` looks like `j` did, its ports leading to the survivors of j's neighbours. */
  ghost predicate Mirrors(d: Diff, s: Progress, a: seq<Node>, j: nat)
    requires j < |d.a|
  {
    Survivor(s, j) < |a| && var n, m := a[Survivor(s, j)], d.a[j];
      && n.id == m.id && n.linkOn == m.linkOn && n.initiatedReset == m.initiatedReset && n.maxHops == m.maxHops
      && n.color == d.color && |n.ports| == |m.ports|
      && forall p :: 0 <= p < |n.ports| ==> n.ports[p] == SurvivorRef(s, m.ports[p])
  }

  ghost predicate Finished(d: Diff, s: Progress) { s.done == s.w.Keys && s.marked == s.w.Keys && s.port == 0 }

  lemma {:induction false} OldAllSeen(d: Diff, s: Progress, i: nat)
    requires ValidDiff(d) && ProgressOk(d, s) && Finished(d, s) && i in d.o0
    ensures (i in s.w) != (i in s.lost)
    decreases Level(d.o0[i])
  {
    OutcastsApart(d, s);
    if i != d.l0 {
      var u, q := d.o0[i].peer, d.o0[i].slot;
      assert NodeOk(d.a, d.o0, i) && UpOk(d.a, d.o0, i);
      OldAllSeen(d, s, u);
      if u in s.w {
        assert PairOk(d.a, u, s.w[u]) && PortRecorded(d, s, u, q);
      }
    }
  }

  lemma {:induction false} NewAllSeen(d: Diff, s: Progress, j: nat)
    requires ValidDiff(d) && ProgressOk(d, s) && Finished(d, s) && j in d.o1
    ensures (j in s.v) != (j in s.born)
    decreases Level(d.o1[j])
  {
    OutcastsApart(d, s);
    if j != d.l1 {
      var u, q := d.o1[j].peer, d.o1[j].slot;
      assert NodeOk(d.a, d.o1, j) && UpOk(d.a, d.o1, j);
      NewAllSeen(d, s, u);
      if u in s.v {
        var i := s.v[u];
        assert PairHangs(d, s, i) && PairOk(d.a, i, u) && PortRecorded(d, s, i, q);
        PairUp(d, s, i, q);
      }
    }
  }

  /** Both nodes of a pair have the same upward port. */
  lemma PairUp(d: Diff, s: Progress, i: nat, p: nat)
    requires ValidDiff(d) && ProgressOk(d, s) && i in s.w
    ensures i in d.o0 && s.w[i] in d.o1 && (IsUp(d.o0[i], p) <==> IsUp(d.o1[s.w[i]], p))
  {
    assert PairHangs(d, s, i);
  }

  lemma MatchedMirrors(d: Diff, s: Progress, a: seq<Node>, j: nat)
    requires ValidDiff(d) && ProgressOk(d, s) && Finished(d, s) && StoreOk(d, s, a) && j in s.v
    ensures j < |d.a| && Mirrors(d, s, a, j)
  {
    var i := s.v[j];
    PairFacts(d, s, i);
    StoreAt(d, s, a, i);
    OutcastsApart(d, s);
    forall p | 0 <= p < |a[i].ports| ensures a[i].ports[p] == SurvivorRef(s, d.a[j].ports[p]) {
      MatchedPort(d, s, i, p);
    }
  }

  lemma MatchedPort(d: Diff, s: Progress, i: nat, p: nat)
    requires ValidDiff(d) && ProgressOk(d, s) && Finished(d, s) && i in s.w
    requires i < |d.a| && s.w[i] < |d.a| && p < |d.a[i].ports| == |d.a[s.w[i]].ports|
    ensures NewPort(d.a[i].ports[p], d.a[s.w[i]].ports[p]) == SurvivorRef(s, d.a[s.w[i]].ports[p])
  {
    var j := s.w[i];
    OutcastsApart(d, s);
    PairUp(d, s, i, p);
    assert PairHangs(d, s, i) && PortRecorded(d, s, i, p);
    assert NodeOk(d.a, d.o0, i) && UpOk(d.a, d.o0, i) && NodeOk(d.a, d.o1, j) && UpOk(d.a, d.o1, j);
  }

  lemma BornMirrors(d: Diff, s: Progress, a: seq<Node>, j: nat)
    requires ValidDiff(d) && ProgressOk(d, s) && StoreOk(d, s, a) && j in s.born
    ensures j < |d.a| && Mirrors(d, s, a, j)
  {
    hide ValidDiff, ProgressOk, StoreOk, Outcasts, Inverse;
    SetFacts(d, s);
    StoreAt(d, s, a, j);
    forall p | 0 <= p < |a[j].ports| ensures a[j].ports[p] == SurvivorRef(s, d.a[j].ports[p]) {
      BornPort(d, s, j, p);
    }
  }

  lemma BornPort(d: Diff, s: Progress, j: nat, p: nat)
    requires ValidDiff(d) && ProgressOk(d, s) && j in s.born && j in d.o1 && j < |d.a| && p < |d.a[j].ports|
    ensures |BornPorts(d, s, j)| == |d.a[j].ports| && BornPorts(d, s, j)[p] == SurvivorRef(s, d.a[j].ports[p])
  {
    OutcastsApart(d, s);
    assert BornBelow(d, s, j);
    assert NodeOk(d.a, d.o1, j) && UpOk(d.a, d.o1, j) && DownOk(d.a, d.o1, j, p);
    if d.a[j].ports[p].Some? && !IsUp(d.o1[j], p) {
      var k := d.a[j].ports[p].value;
      assert d.o1[k].peer in s.born && k in s.born;
    }
  }

  // ---- it is a tree again --------------------------------------------------

  function SurvivorHang(s: Progress, h: Hang): Hang { if h.Top? then Top else h.(peer := Survivor(s, h.peer)) }

  /** The new node that survivor `x` stands for. */
  function StandsFor(s: Progress, x: nat): nat { if x in s.w then s.w[x] else x }

  ghost function SurvivorOrient(d: Diff, s: Progress): Orient
    requires forall x | x in s.w.Keys + s.born :: StandsFor(s, x) in d.o1
  {
    map x | x in s.w.Keys + s.born :: SurvivorHang(s, d.o1[StandsFor(s, x)])
  }

  /** Survivors and new nodes stand for each other. */
  ghost predicate OneToOne(d: Diff, s: Progress) {
    && (forall x | x in s.w.Keys + s.born :: StandsFor(s, x) in d.o1 && Survivor(s, StandsFor(s, x)) == x)
    && (forall j | j in d.o1 :: Survivor(s, j) in s.w.Keys + s.born && StandsFor(s, Survivor(s, j)) == j)
  }

  lemma StandsForSurvivor(d: Diff, s: Progress)
    requires ValidDiff(d) && ProgressOk(d, s) && Finished(d, s)
    ensures forall x | x in s.w.Keys + s.born :: StandsFor(s, x) in d.o1 && Survivor(s, StandsFor(s, x)) == x
    ensures forall j | j in d.o1 :: Survivor(s, j) in s.w.Keys + s.born && StandsFor(s, Survivor(s, j)) == j
    ensures OneToOne(d, s)
  {
    hide Oriented, Leveled, ProgressOk, Finished, Outcasts, Inverse;
    SetFacts(d, s);
    forall j | j in d.o1 ensures Survivor(s, j) in s.w.Keys + s.born && StandsFor(s, Survivor(s, j)) == j {
      NewAllSeen(d, s, j);
    }
    forall x | x in s.w.Keys + s.born ensures StandsFor(s, x) in d.o1 && Survivor(s, StandsFor(s, x)) == x {
      if x in s.w {
        PairFacts(d, s, x);
      }
    }
  }

  lemma SurvivorsOriented(d: Diff, s: Progress, a: seq<Node>)
    requires ValidDiff(d) && ProgressOk(d, s) && Finished(d, s) && |a| == |d.a|
    requires forall j | j in d.o1 :: j < |d.a| && Mirrors(d, s, a, j)
    requires forall x | x in s.w.Keys + s.born :: StandsFor(s, x) in d.o1
    ensures Oriented(a, SurvivorOrient(d, s), d.l0)
  {
    hide *;
    StandsForSurvivor(d, s);
    ProgressSets(d, s);
    PairFacts(d, s, s.cur);
    PairFacts(d, s, d.l0);
    var o := SurvivorOrient(d, s);
    OrientKeys(d, s);
    forall x | x in o ensures x < |a| && NodeOk(a, o, x) && (o[x].Top? <==> x == d.l0) {
      SurvivorNodeOk(d, s, a, o, x);
      SurvivorTop(d, s, x);
    }
    OrientedIntro(a, o, d.l0);
  }

  lemma OrientKeys(d: Diff, s: Progress)
    requires forall x | x in s.w.Keys + s.born :: StandsFor(s, x) in d.o1
    ensures SurvivorOrient(d, s).Keys == s.w.Keys + s.born
  {
  }

  lemma OrientedIntro(a: seq<Node>, o: Orient, top: nat)
    requires top in o && forall x | x in o :: x < |a| && NodeOk(a, o, x) && (o[x].Top? <==> x == top)
    ensures Oriented(a, o, top)
  {
  }

  lemma SurvivorTop(d: Diff, s: Progress, x: nat)
    requires ValidDiff(d) && (forall x | x in s.w.Keys + s.born :: StandsFor(s, x) in d.o1)
    requires x in s.w.Keys + s.born && Survivor(s, StandsFor(s, x)) == x
    requires d.l0 in s.w && s.w[d.l0] == d.l1 && d.l1 in s.v && s.v[d.l1] == d.l0
    ensures SurvivorOrient(d, s)[x].Top? <==> x == d.l0
  {
    assert d.o1[StandsFor(s, x)].Top? <==> StandsFor(s, x) == d.l1;
  }

  lemma SurvivorNodeOk(d: Diff, s: Progress, a: seq<Node>, o: Orient, x: nat)
    requires ValidDiff(d)
    requires forall j | j in d.o1 :: j < |d.a| && Mirrors(d, s, a, j)
    requires OneToOne(d, s)
    requires o == SurvivorOrient(d, s) && x in o
    ensures x < |a| && NodeOk(a, o, x)
  {
    hide ValidDiff, Mirrors, SurvivorOrient, Survivor, StandsFor, UpOk, DownOk;
    SurvivorUp(d, s, a, o, x);
    forall p | 0 <= p < |a[x].ports| ensures DownOk(a, o, x, p) {
      SurvivorDown(d, s, a, o, x, p);
    }
  }

  lemma SurvivorUp(d: Diff, s: Progress, a: seq<Node>, o: Orient, x: nat)
    requires ValidDiff(d)
    requires forall j | j in d.o1 :: j < |d.a| && Mirrors(d, s, a, j)
    requires OneToOne(d, s)
    requires o == SurvivorOrient(d, s) && x in o
    ensures x < |a| && UpOk(a, o, x)
  {
    hide Leveled, Survivor, StandsFor;
    var j := StandsFor(s, x);
    assert Mirrors(d, s, a, j) && NodeOk(d.a, d.o1, j) && UpOk(d.a, d.o1, j);
    if o[x].Hung? {
      var u := d.o1[j].peer;
      assert Mirrors(d, s, a, u);
      assert o[x].peer == Survivor(s, u) && o[Survivor(s, u)] == SurvivorHang(s, d.o1[u]);
      assert a[x].ports[o[x].port] == SurvivorRef(s, d.a[j].ports[o[x].port]);
      assert a[Survivor(s, u)].ports[o[x].slot] == SurvivorRef(s, d.a[u].ports[o[x].slot]);
    }
  }

  lemma SurvivorDown(d: Diff, s: Progress, a: seq<Node>, o: Orient, x: nat, p: nat)
    requires ValidDiff(d)
    requires forall j | j in d.o1 :: j < |d.a| && Mirrors(d, s, a, j)
    requires OneToOne(d, s)
    requires o == SurvivorOrient(d, s) && x in o
    requires x < |a| && p < |a[x].ports|
    ensures DownOk(a, o, x, p)
  {
    hide Leveled, Survivor, StandsFor, UpOk;
    var j := StandsFor(s, x);
    assert Mirrors(d, s, a, j) && NodeOk(d.a, d.o1, j);
    assert DownOk(d.a, d.o1, j, p);
    assert a[x].ports[p] == SurvivorRef(s, d.a[j].ports[p]);
    if d.a[j].ports[p].Some? && !IsUp(d.o1[j], p) {
      var k := d.a[j].ports[p].value;
      assert o[Survivor(s, k)] == SurvivorHang(s, d.o1[k]);
    }
  }

  // ---- what the code sees while it works -----------------------------------

  /** The two ports being compared are still the original ones, and the neighbour in the
      old tree is coloured exactly if it was compared before. */
  lemma PortView(d: Diff, s: Progress, a: seq<Node>)
    requires ValidDiff(d) && Busy(d, s) && StoreOk(d, s, a) && s.port < |d.a[s.cur].ports|
    ensures |a| == |d.a| && |a[s.cur].ports| == |d.a[s.cur].ports| && |a[s.w[s.cur]].ports| == |d.a[s.cur].ports|
    ensures a[s.cur].ports[s.port] == d.a[s.cur].ports[s.port]
    ensures a[s.w[s.cur]].ports[s.port] == d.a[s.w[s.cur]].ports[s.port]
    ensures var x, y := d.a[s.cur].ports[s.port], d.a[s.w[s.cur]].ports[s.port];
      && (x.Some? ==> x.value < |a|) && (y.Some? ==> y.value < |a|)
      && (x.Some? && y.Some? ==> (a[x.value].color == d.color <==> IsUp(d.o0[s.cur], s.port)))
      && (IsUp(d.o0[s.cur], s.port) ==> x.Some? && y.Some?)
  {
    PairFacts(d, s, s.cur);
    SetFacts(d, s);
    StoreAt(d, s, a, s.cur);
    StoreAt(d, s, a, s.w[s.cur]);
    PortFactsHold(d, s);
    var x, y := d.a[s.cur].ports[s.port], d.a[s.w[s.cur]].ports[s.port];
    hide ProgressOk, Oriented, Leveled;
    if x.Some? && x.value in d.o0 {
      StoreAt(d, s, a, x.value);
    }
    if y.Some? {
      NeighbourInStore(d, s.w[s.cur], s.port);
    }
    if x.Some? && y.Some? && IsUp(d.o0[s.cur], s.port) {
      assert UpPair(d, s, s.cur, x, y);
    }
  }

  lemma NeighbourInStore(d: Diff, j: nat, p: nat)
    requires ValidDiff(d) && j in d.o1 && j < |d.a| && p < |d.a[j].ports| && d.a[j].ports[p].Some?
    ensures d.a[j].ports[p].value < |d.a|
  {
    assert NodeOk(d.a, d.o1, j) && UpOk(d.a, d.o1, j) && DownOk(d.a, d.o1, j, p);
  }

  /** Queues of the two trees: their entries are the pairs, in the same order. */
  ghost predicate Queues(s: Progress, list0: seq<nat>, list1: seq<nat>) {
    && |list0| == |list1| && Distinct(list0)
    && (forall m :: 0 <= m < |list0| ==> list0[m] in s.w && s.w[list0[m]] == list1[m])
    && (forall i | i in s.w :: i in list0)
  }

  lemma QueuesGrow(s: Progress, s': Progress, list0: seq<nat>, list1: seq<nat>, x: nat, y: nat)
    requires Queues(s, list0, list1) && x !in s.w && s'.w == s.w[x := y]
    ensures Queues(s', list0 + [x], list1 + [y])
  {
    forall m | 0 <= m < |list0| + 1 ensures (list0 + [x])[m] in s'.w && s'.w[(list0 + [x])[m]] == (list1 + [y])[m] {
    }
  }

  lemma QueuesSame(s: Progress, s': Progress, list0: seq<nat>, list1: seq<nat>)
    requires Queues(s, list0, list1) && s'.w == s.w
    ensures Queues(s', list0, list1)
  {
  }

  /** The queue never holds more nodes than the old tree has. */
  lemma QueueBound(d: Diff, s: Progress, list0: seq<nat>, list1: seq<nat>)
    requires ValidDiff(d) && ProgressOk(d, s) && Queues(s, list0, list1)
    ensures |list0| <= |d.o0.Keys|
  {
    SetFacts(d, s);
    DistinctBound(list0, d.o0.Keys);
  }

  lemma LostEvents(d: Diff, s: Progress, s': Progress, ev: seq<(nat, Event)>, order: seq<nat>, x: nat)
    requires ValidDiff(d) && EventsOk(d, s, ev) && Distinct(order) && Busy(d, s) && Busy(d, s')
    requires forall i :: i in order <==> i in d.o0 && Under(d.o0, x, i)
    requires forall i | i in order :: i !in s.w && i !in s.lost
    requires s' == s.(port := s.port + 1, lost := s.lost + Below(d.o0, x))
    ensures EventsOk(d, s', ev + Events(order, ReportLost))
  {
    hide *;
    var more := Events(order, ReportLost);
    BusyFacts(d, s);
    SetFacts(d, s);
    DisjointTrees(d, s);
    SubtreeEvents(d, d.o0, order, x, ReportLost);
    forall e | e in more ensures EventFits(d, s', e) {
      OutcastFits(d, s', e, ReportLost);
    }
    EventsGrow(d, s, s', ev, more);
  }

  lemma OutcastFits(d: Diff, s: Progress, e: (nat, Event), cb: Callback)
    requires e.1 == EventOf(cb) && (if cb.ReportLost? then e.0 in s.lost else e.0 in s.born)
    ensures EventFits(d, s, e)
  {
  }

  lemma SubtreeEvents(d: Diff, o: Orient, order: seq<nat>, x: nat, cb: Callback)
    requires ValidDiff(d) && (o == d.o0 || o == d.o1) && Distinct(order)
    requires forall i :: i in order <==> i in o && Under(o, x, i)
    ensures var more := Events(order, cb);
      && (forall m, n :: 0 <= m < n < |more| ==> more[m].0 != more[n].0)
      && EventNodes(more) == Below(o, x)
      && (forall e | e in more :: e.0 in Below(o, x) && e.0 in order && e.1 == EventOf(cb))
      && (forall i | i in Below(o, x) :: i in order && i in o)
  {
    WalkEvents(order, cb);
    assert (set i | i in order) == Below(o, x);
  }

  lemma BornEvents(d: Diff, s: Progress, s': Progress, ev: seq<(nat, Event)>, order: seq<nat>, y: nat)
    requires ValidDiff(d) && EventsOk(d, s, ev) && Distinct(order) && Busy(d, s) && Busy(d, s')
    requires forall i :: i in order <==> i in d.o1 && Under(d.o1, y, i)
    requires forall i | i in order :: i !in s.v && i !in s.born
    requires s' == s.(port := s.port + 1, born := s.born + Below(d.o1, y))
    ensures EventsOk(d, s', ev + Events(order, ReportFound))
  {
    hide *;
    var more := Events(order, ReportFound);
    BusyFacts(d, s);
    SetFacts(d, s);
    DisjointTrees(d, s);
    SubtreeEvents(d, d.o1, order, y, ReportFound);
    forall e | e in more ensures EventFits(d, s', e) {
      OutcastFits(d, s', e, ReportFound);
    }
    EventsGrow(d, s, s', ev, more);
  }

  lemma DisjointTrees(d: Diff, s: Progress)
    requires ValidDiff(d) && ProgressOk(d, s)
    ensures forall i | i in d.o0 :: i !in s.v && i !in s.born
    ensures forall j | j in d.o1 :: j !in s.w && j !in s.lost
  {
    SetFacts(d, s);
  }

  lemma MarkEvents(d: Diff, s: Progress, s': Progress, ev: seq<(nat, Event)>, i: nat, e: Event)
    requires ValidDiff(d) && ProgressOk(d, s) && EventsOk(d, s, ev) && i in s.w && i !in s.marked
    requires s' == s.(cur := i, marked := s.marked + {i})
    requires i < |d.a| && s.w[i] < |d.a| && e == MatchEvent(d.a[i], d.a[s.w[i]])
    ensures EventsOk(d, s', ev + [(i, e)])
  {
    hide *;
    SetFacts(d, s);
    PairFacts(d, s, i);
    DisjointTrees(d, s);
    OneEvent(i, e);
    MatchFits(d, s', i, e);
    EventsGrow(d, s, s', ev, [(i, e)]);
  }

  lemma OneEvent(i: nat, e: Event)
    ensures EventNodes([(i, e)]) == {i}
  {
    assert (i, e) in [(i, e)];
  }

  lemma MatchFits(d: Diff, s: Progress, i: nat, e: Event)
    requires i in s.marked && i in s.w && i < |d.a| && s.w[i] < |d.a| && e == MatchEvent(d.a[i], d.a[s.w[i]])
    ensures EventFits(d, s, (i, e))
  {
  }

  /** Same events, if what they are judged by does not change. */
  lemma SameEvents(d: Diff, s: Progress, s': Progress, ev: seq<(nat, Event)>)
    requires EventsOk(d, s, ev) && s'.marked == s.marked && s'.lost == s.lost && s'.born == s.born
    requires s.w.Keys <= s'.w.Keys && forall i | i in s.w :: s'.w[i] == s.w[i]
    ensures EventsOk(d, s', ev)
  {
    assert EventNodes([]) == {};
    assert ev + [] == ev;
    EventsGrow(d, s, s', ev, []);
  }

  /** Where root_node or irm_node points to while pairs are being marked. */
  function Tracked(s: Progress, r: Option<nat>): Option<nat> {
    if r.Some? && r.value in s.v && s.v[r.value] in s.marked then Some(s.v[r.value]) else r
  }

  lemma TrackMark(d: Diff, s: Progress, s': Progress, r: Option<nat>, i: nat)
    requires ValidDiff(d) && ProgressOk(d, s) && i in s.w && i !in s.marked && s' == s.(cur := i, marked := s.marked + {i})
    requires r.Some? ==> r.value in d.o1
    ensures Tracked(s', r) == if Tracked(s, r) == Some(s.w[i]) then Some(i) else Tracked(s, r)
  {
    hide *;
    SetFacts(d, s);
    PairFacts(d, s, i);
    DisjointTrees(d, s);
    TrackCases(s, s', r, i);
  }

  lemma TrackCases(s: Progress, s': Progress, r: Option<nat>, i: nat)
    requires i in s.w && i !in s.marked && s' == s.(cur := i, marked := s.marked + {i})
    requires s.w[i] in s.v && s.v[s.w[i]] == i && forall j | j in s.v :: s.v[j] in s.w && s.w[s.v[j]] == j
    requires s.w[i] !in s.w
    ensures Tracked(s', r) == if Tracked(s, r) == Some(s.w[i]) then Some(i) else Tracked(s, r)
  {
  }

  lemma TrackSame(s: Progress, s': Progress, r: Option<nat>)
    requires s'.marked == s.marked && s.v.Keys <= s'.v.Keys && forall j | j in s.v :: s'.v[j] == s.v[j]
    requires forall j | j in s'.v && j !in s.v :: s'.v[j] !in s.marked
    ensures Tracked(s', r) == Tracked(s, r)
  {
  }

  lemma TrackEnd(d: Diff, s: Progress, r: Option<nat>)
    requires ValidDiff(d) && ProgressOk(d, s) && Finished(d, s)
    ensures Tracked(s, r) == SurvivorRef(s, r)
  {
    SetFacts(d, s);
  }

  lemma WalkIsDistinct(o: Orient, root: nat, order: seq<nat>)
    requires Leveled(o) && Walk(o, root, order, |order|)
    ensures Distinct(order)
  {
  }

  lemma UpPortsFound(d: Diff, y: nat)
    requires ValidDiff(d) && y in d.o1 && d.o1[y].Hung? && y < |d.a|
    ensures Leveled(d.o1)
    ensures forall p :: 0 <= p < |d.a[y].ports| ==> (d.a[y].ports[p] == Some(d.o1[y].peer) <==> p == d.o1[y].port)
  {
    forall p | 0 <= p < |d.a[y].ports|
      ensures d.a[y].ports[p] == Some(d.o1[y].peer) <==> p == d.o1[y].port
    {
      UpPortFound(d, y, p);
    }
  }

  lemma GraftTop(o: Orient, y: nat, top: nat)
    requires Leveled(o) && y in o && o[y].Hung? && top !in o
    ensures y in Graft(o, y, top)
  {
    assert Under(o, y, y);
  }

  /** Before the first pair is looked at. */
  function StartProgress(d: Diff): Progress {
    Progress(map[d.l0 := d.l1], map[d.l1 := d.l0], {}, {}, d.l0, 0, {}, {})
  }

  lemma StartOk(d: Diff)
    requires ValidDiff(d) && Compatible(d)
    ensures var s := StartProgress(d);
      && ProgressOk(d, s) && StoreOk(d, s, d.a) && Queues(s, [d.l0], [d.l1]) && EventsOk(d, s, [])
      && s.port == 0 && s.marked == s.done == {}
      && forall r :: Tracked(s, r) == r
  {
    hide *;
    var s := StartProgress(d);
    StartPairing(d, s);
    StartPair(d, s);
    StartRest(d, s);
    OldStart(d, s);
    ProgressIntro(d, s);
  }

  lemma StartRest(d: Diff, s: Progress)
    requires s == StartProgress(d)
    ensures Outcasts(d, s) && Queues(s, [d.l0], [d.l1]) && EventsOk(d, s, [])
    ensures s.port == 0 && s.marked == s.done == {} && forall r :: Tracked(s, r) == r
  {
    assert EventNodes([]) == {};
  }

  lemma ProgressIntro(d: Diff, s: Progress)
    requires Pairing(d, s) && Outcasts(d, s)
    ensures ProgressOk(d, s)
  {
  }

  lemma StartPairing(d: Diff, s: Progress)
    requires ValidDiff(d) && Compatible(d) && s == StartProgress(d)
    ensures Pairing(d, s)
  {
    hide *;
    StartPair(d, s);
    assert s.w.Keys == {d.l0};
    forall i, p | i in s.w && 0 <= p < |d.a[i].ports| ensures PortRecorded(d, s, i, p) {
      NothingHandled(d, s, i, p);
    }
    PairingIntro(d, s);
  }

  lemma StartPair(d: Diff, s: Progress)
    requires ValidDiff(d) && Compatible(d) && s == StartProgress(d)
    ensures s.w == map[d.l0 := d.l1] && s.v == map[d.l1 := d.l0] && s.done == {} && s.marked == {} && s.port == 0
    ensures s.cur == d.l0 && d.l0 in s.w && PairHangs(d, s, d.l0) && PairOk(d.a, d.l0, d.l1)
    ensures d.l0 < |d.a| && d.l1 < |d.a| && |d.a[d.l0].ports| == |d.a[d.l1].ports| && d.l0 in d.o0
  {
    assert Follow(d.a, d.l0, []) == Some(d.l0) && Follow(d.a, d.l1, []) == Some(d.l1);
    assert Reached(d, d.l0, d.l1);
  }

  lemma NothingHandled(d: Diff, s: Progress, i: nat, p: nat)
    requires i in s.w && i < |d.a| && s.w[i] < |d.a| && p < |d.a[i].ports| == |d.a[s.w[i]].ports| && i in d.o0
    requires s.done == {} && s.port == 0
    ensures PortRecorded(d, s, i, p)
  {
  }

  lemma PairingIntro(d: Diff, s: Progress)
    requires s.w == map[d.l0 := d.l1] && s.v == map[d.l1 := d.l0] && s.done == {} && s.marked == {} && s.port == 0
    requires s.cur == d.l0 && PairHangs(d, s, d.l0) && PairOk(d.a, d.l0, d.l1)
    requires forall i, p | i in s.w && 0 <= p < |d.a[i].ports| :: PortRecorded(d, s, i, p)
    ensures Pairing(d, s)
  {
    hide PairHangs, PairOk, PortRecorded;
  }

  lemma OldStart(d: Diff, s: Progress)
    requires ValidDiff(d) && s == StartProgress(d)
    ensures StoreOk(d, s, d.a)
  {
  }

  /** All pairs handled. */
  lemma AllHandled(d: Diff, s: Progress, list0: seq<nat>, list1: seq<nat>)
    requires ValidDiff(d) && ProgressOk(d, s) && Queues(s, list0, list1) && s.port == 0
    requires s.marked == s.done && forall i | i in list0 :: i in s.done
    ensures Finished(d, s)
  {
    hide ProgressOk, ValidDiff, Outcasts, Inverse, Distinct;
    SetFacts(d, s);
  }

  /** The pair at the head of the queues has not been looked at yet. */
  ghost function Firsts(list: seq<nat>, pos: nat): set<nat>
    requires pos <= |list|
  {
    set i | i in list[..pos]
  }

  lemma FirstsStep(before: seq<nat>, list: seq<nat>, pos: nat)
    requires before <= list && pos < |before|
    ensures Firsts(list, pos + 1) == Firsts(before, pos) + {before[pos]}
  {
    assert list[..pos + 1] == before[..pos] + [before[pos]];
  }

  lemma FirstsAll(list: seq<nat>, pos: nat)
    requires pos == |list|
    ensures forall i | i in list :: i in Firsts(list, pos)
  {
    assert list[..pos] == list;
  }

  lemma QueueLengths(s: Progress, list0: seq<nat>, list1: seq<nat>)
    requires Queues(s, list0, list1)
    ensures |list0| == |list1|
  {
  }

  lemma StartIs(d: Diff)
    ensures var s := StartProgress(d); s.port == 0 && s.done == {} && s.marked == {} && Firsts([d.l0], 0) == {}
  {
  }

  lemma HeadIsNew(s: Progress, list0: seq<nat>, list1: seq<nat>, pos: nat)
    requires Queues(s, list0, list1) && pos < |list0| && s.done == Firsts(list0, pos)
    ensures list0[pos] in s.w && s.w[list0[pos]] == list1[pos] && list0[pos] !in s.done
  {
  }

  /** The result, in the terms a caller cares about. */
  ghost predicate Transplanted(d: Diff, s: Progress, a: seq<Node>)
  {
    && |a| == |d.a|
    && (forall i | i in d.o0 :: (i in s.w) != (i in s.lost))
    && (forall j | j in d.o1 :: (j in s.v) != (j in s.born))
    && (forall j | j in d.o1 :: j < |d.a| && Mirrors(d, s, a, j))
    && (forall x | x in s.w.Keys + s.born :: StandsFor(s, x) in d.o1)
    && Oriented(a, SurvivorOrient(d, s), d.l0)
  }

  lemma UpdateDone(d: Diff, s: Progress, a: seq<Node>)
    requires ValidDiff(d) && ProgressOk(d, s) && Finished(d, s) && StoreOk(d, s, a)
    ensures Transplanted(d, s, a)
  {
    hide *;
    SetFacts(d, s);
    StoreSize(d, s, a);
    forall i | i in d.o0 ensures (i in s.w) != (i in s.lost) {
      OldAllSeen(d, s, i);
    }
    forall j | j in d.o1 ensures (j in s.v) != (j in s.born) && j < |d.a| && Mirrors(d, s, a, j) {
      NewAllSeen(d, s, j);
      if j in s.v {
        MatchedMirrors(d, s, a, j);
      } else {
        BornMirrors(d, s, a, j);
      }
    }
    StandsForSurvivor(d, s);
    SurvivorsOriented(d, s, a);
    TransplantedIntro(d, s, a);
  }

  lemma StoreSize(d: Diff, s: Progress, a: seq<Node>)
    requires ValidDiff(d) && StoreOk(d, s, a)
    ensures |a| == |d.a|
  {
  }

  lemma TransplantedIntro(d: Diff, s: Progress, a: seq<Node>)
    requires |a| == |d.a|
    requires forall i | i in d.o0 :: (i in s.w) != (i in s.lost)
    requires forall j | j in d.o1 :: (j in s.v) != (j in s.born) && j < |d.a| && Mirrors(d, s, a, j)
    requires forall x | x in s.w.Keys + s.born :: StandsFor(s, x) in d.o1
    requires Oriented(a, SurvivorOrient(d, s), d.l0)
    ensures Transplanted(d, s, a)
  {
  }

  /** A pair about to be marked is still as it was. */
  lemma UnmarkedIs(d: Diff, s: Progress, a: seq<Node>, i: nat)
    requires ValidDiff(d) && ProgressOk(d, s) && StoreOk(d, s, a) && i in s.w && i !in s.marked
    ensures i < |a| == |d.a| && s.w[i] < |a| && a[i] == d.a[i] && a[s.w[i]] == d.a[s.w[i]]
  {
    PairFacts(d, s, i);
    StoreAt(d, s, a, i);
    StoreAt(d, s, a, s.w[i]);
  }

  lemma MatchEventIs(n0: Node, n1: Node, e: Event)
    requires if n0.linkOn && !n1.linkOn then e == LinkTurnedOff
      else if !n0.linkOn && n1.linkOn then e == LinkTurnedOn
      else if n1.initiatedReset && n1.linkOn then e == ResetInitiated else e == Updated
    ensures e == MatchEvent(n0, n1)
  {
  }

  lemma RefreshedIs(n0: Node, n1: Node, color: nat)
    ensures Refreshed(n0, n1, color)
      == n0.(id := n1.id, color := color, linkOn := n1.linkOn, initiatedReset := n1.initiatedReset, maxHops := n1.maxHops)
  {
  }

  lemma PortCount(d: Diff, s: Progress, a: seq<Node>)
    requires ValidDiff(d) && Busy(d, s) && StoreOk(d, s, a)
    ensures s.cur < |a| == |d.a| && s.cur in s.w && s.w[s.cur] < |a|
    ensures |a[s.cur].ports| == |d.a[s.cur].ports| == |a[s.w[s.cur]].ports|
  {
    PairFacts(d, s, s.cur);
    StoreAt(d, s, a, s.cur);
    StoreAt(d, s, a, s.w[s.cur]);
  }

  lemma AdoptReady(d: Diff, s: Progress, a: seq<Node>, y: nat)
    requires ValidDiff(d) && Busy(d, s) && StoreOk(d, s, a) && s.port < |d.a[s.cur].ports|
    requires d.a[s.cur].ports[s.port] == None && d.a[s.w[s.cur]].ports[s.port] == Some(y)
    ensures Leveled(d.o1) && y in d.o1 && d.o1[y].Hung? && d.o1[y].peer == s.w[s.cur]
    ensures s.cur < |a| && s.port < |a[s.cur].ports| && y < |a| && s.cur != y && d.o1[y].port < |a[y].ports|
    ensures forall p :: 0 <= p < |a[y].ports| ==> (a[y].ports[p] == Some(s.w[s.cur]) <==> p == d.o1[y].port)
    ensures var b, g := Moved(a, s.cur, s.port, y, d.o1[y].port), Graft(d.o1, y, s.cur);
      Leveled(g) && y in g && SubOk(b, g, y) && Unvisited(b, g, y, d.color)
  {
    hide *;
    BusyFacts(d, s);
    DiffLeveled(d);
    BearPort(d, s, y);
    BornWalkReady(d, s, a, y);
    FreshNewIs(d, s, s.w[s.cur], s.port, y);
    BornUntouched(d, s, a, y);
    TopIsBelow(d, y);
    StoreSize(d, s, a);
    UpPortsFound(d, y);
    GraftTop(d.o1, y, s.cur);
  }

  lemma AdoptDone(d: Diff, s: Progress, s': Progress, a: seq<Node>, b: seq<Node>, g: Orient, order: seq<nat>, y: nat,
                  ev: seq<(nat, Event)>)
    requires ValidDiff(d) && Busy(d, s) && StoreOk(d, s, a) && s.port < |d.a[s.cur].ports| && Leveled(d.o1)
    requires d.a[s.cur].ports[s.port] == None && d.a[s.w[s.cur]].ports[s.port] == Some(y)
    requires y in d.o1 && d.o1[y].Hung?
    requires s.cur < |a| && s.port < |a[s.cur].ports| && y < |a| && s.cur != y && d.o1[y].port < |a[y].ports|
    requires b == Moved(a, s.cur, s.port, y, d.o1[y].port) && g == Graft(d.o1, y, s.cur) && Leveled(g)
    requires Walk(g, y, order, |order|) && EventsOk(d, s, ev)
    requires forall i :: i in order <==> i in g && Under(g, y, i)
    requires Present(b, g, order)
    requires s' == s.(port := s.port + 1, born := s.born + Below(d.o1, y))
    ensures Busy(d, s') && StoreOk(d, s', VisitAll(b, g, order, d.color, ReportFound))
    ensures EventsOk(d, s', ev + Events(order, ReportFound))
  {
    hide *;
    BusyFacts(d, s);
    PresentIs(b, g, order);
    BearPort(d, s, y);
    BornWalkReady(d, s, a, y);
    StoreSize(d, s, a);
    BornUntouched(d, s, a, y);
    GraftFacts(d.o1, y, s.cur);
    WalkIsDistinct(g, y, order);
    BearStore(d, s, s', a, b, g, order, y);
    BornEvents(d, s, s', ev, order, y);
  }
}
