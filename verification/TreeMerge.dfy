/** What the comparison of TreeUpdate leaves in the store: the old tree, port for port the
    shape of the new one, and one event per node. */
module TreeMerge {
  import opened Basics
  import opened NodeStore
  import opened Orientation
  import opened TreeWalk
  import opened TreeUpdate

  function MatchEvent(n0: Node, n1: Node): Event {
    if n0.linkOn && !n1.linkOn then LinkTurnedOff
    else if !n0.linkOn && n1.linkOn then LinkTurnedOn
    else if n1.initiatedReset && n1.linkOn then ResetInitiated
    else Updated
  }

  /** An old node with the properties of its new counterpart. */
  function Refreshed(n0: Node, n1: Node, color: nat): Node {
    n0.(id := n1.id, color := color, linkOn := n1.linkOn, initiatedReset := n1.initiatedReset, maxHops := n1.maxHops)
  }

  /** A handled port: dropped, kept, or moved over from the new tree. */
  function NewPort(x: Option<nat>, y: Option<nat>): (r: Option<nat>)
    ensures r.Some? <==> y.Some?
    ensures x.Some? && y.Some? ==> r == x
    ensures x.None? ==> r == y
  {
    if y.None? then None else if x.Some? then x else y
  }

  ghost predicate MergedNode(d: Diff, s: Progress, n: Node, i: nat)
    requires i in s.w && i < |d.a| && s.w[i] < |d.a| && |d.a[i].ports| == |d.a[s.w[i]].ports|
  {
    && n == Refreshed(d.a[i], d.a[s.w[i]], d.color).(ports := n.ports)
    && |n.ports| == |d.a[i].ports|
    && forall p :: 0 <= p < |n.ports| ==>
      n.ports[p] == if Handled(s, i, p) then NewPort(d.a[i].ports[p], d.a[s.w[i]].ports[p]) else d.a[i].ports[p]
  }

  ghost predicate OldOk(d: Diff, s: Progress, n: Node, i: nat)
    requires i in d.o0 && i < |d.a|
  {
    if i in s.marked then
      i in s.w && s.w[i] < |d.a| && |d.a[i].ports| == |d.a[s.w[i]].ports| && MergedNode(d, s, n, i)
    else if i in s.lost then n == d.a[i].(color := d.color)
    else n == d.a[i]
  }

  /** Ports of a created node: the topmost one of a moved subtree now points to the old node. */
  function BornPorts(d: Diff, s: Progress, y: nat): seq<Option<nat>>
    requires y in d.o1 && y < |d.a|
  {
    var h, ports := d.o1[y], d.a[y].ports;
    if h.Hung? && h.peer !in s.born && h.peer in s.v && h.port < |ports| then ports[h.port := Some(s.v[h.peer])]
    else ports
  }

  ghost predicate NewOk(d: Diff, s: Progress, n: Node, j: nat)
    requires j in d.o1 && j < |d.a|
  {
    if j in s.v then n == d.a[j].(color := if s.v[j] in s.marked then d.color else d.a[j].color)
    else if j in s.born then
      n == d.a[j].(color := d.color, maxSpeed := n.maxSpeed, bPath := n.bPath, ports := BornPorts(d, s, j))
    else n == d.a[j]
  }

  ghost predicate StoreOk(d: Diff, s: Progress, a: seq<Node>)
    requires ValidDiff(d)
  {
    && |a| == |d.a|
    && (forall i | i in d.o0 :: OldOk(d, s, a[i], i))
    && (forall j | j in d.o1 :: NewOk(d, s, a[j], j))
  }

  // ---- one node at a time --------------------------------------------------

  /** An old node that stays as it is: whatever became handled had its final value already. */
  lemma OldSame(d: Diff, s: Progress, s': Progress, n: Node, i: nat)
    requires i in d.o0 && i < |d.a| && OldOk(d, s, n, i)
    requires (i in s'.marked) == (i in s.marked) && (i in s'.lost) == (i in s.lost)
    requires i in s.marked ==> i in s.w && i in s'.w && s'.w[i] == s.w[i]
    requires i in s.marked ==> forall p: nat :: Handled(s, i, p) ==> Handled(s', i, p)
    requires i in s.marked ==> forall p: nat :: Handled(s', i, p) && !Handled(s, i, p) ==> Settled(d, s, i, p)
    ensures OldOk(d, s', n, i)
  {
  }

  /** Port `p` of the pair of `i` need not be changed. */
  predicate Settled(d: Diff, s: Progress, i: nat, p: nat)
    requires i in s.w
  {
    i < |d.a| && p < |d.a[i].ports| && s.w[i] < |d.a| && p < |d.a[s.w[i]].ports| ==>
      NewPort(d.a[i].ports[p], d.a[s.w[i]].ports[p]) == d.a[i].ports[p]
  }

  /** A new node that stays as it is. */
  lemma NewSame(d: Diff, s: Progress, s': Progress, n: Node, j: nat)
    requires j in d.o1 && j < |d.a| && NewOk(d, s, n, j)
    requires j in s.v ==> j in s'.v && s'.v[j] == s.v[j] && (s.v[j] in s'.marked <==> s.v[j] in s.marked)
    requires j in s'.v && j !in s.v ==> j !in s.born && s'.v[j] !in s'.marked
    requires j !in s'.v ==> (j in s.born <==> j in s'.born)
    requires j in s.born ==> BornBelow(d, s, j) && SamePeer(d, s, s', j)
    ensures NewOk(d, s', n, j)
  {
  }

  predicate SamePeer(d: Diff, s: Progress, s': Progress, j: nat)
    requires j in d.o1
  {
    d.o1[j].Hung? ==> var u := d.o1[j].peer;
      (u in s'.born <==> u in s.born) && (u !in s.born && u in s.v ==> u in s'.v && s'.v[u] == s.v[u])
  }

  lemma PeerStays(d: Diff, s: Progress, s': Progress, j: nat)
    requires Outcasts(d, s) && Outcasts(d, s') && j in s.born
    requires s.born <= s'.born && s.v.Keys <= s'.v.Keys && forall j | j in s.v :: s'.v[j] == s.v[j]
    ensures j in d.o1 && BornBelow(d, s, j) && SamePeer(d, s, s', j)
  {
    OutcastsApart(d, s');
    assert BornBelow(d, s, j);
  }

  /** Everything StoreOk says about one node. */
  lemma StoreAt(d: Diff, s: Progress, a: seq<Node>, i: nat)
    requires ValidDiff(d) && StoreOk(d, s, a) && (i in d.o0 || i in d.o1)
    ensures i < |a| == |d.a| && !(i in d.o0 && i in d.o1)
    ensures i in d.o0 ==> OldOk(d, s, a[i], i)
    ensures i in d.o1 ==> NewOk(d, s, a[i], i)
  {
  }

  lemma StoreIntro(d: Diff, s: Progress, a: seq<Node>)
    requires ValidDiff(d) && |a| == |d.a|
    requires forall i | i in d.o0 :: i < |d.a| && OldOk(d, s, a[i], i)
    requires forall j | j in d.o1 :: j < |d.a| && NewOk(d, s, a[j], j)
    ensures StoreOk(d, s, a)
  {
  }

  /** What ProgressOk says about one pair. */
  lemma PairFacts(d: Diff, s: Progress, i: nat)
    requires ValidDiff(d) && ProgressOk(d, s) && i in s.w
    ensures i in d.o0 && s.w[i] in d.o1 && i < |d.a| && s.w[i] < |d.a| && |d.a[i].ports| == |d.a[s.w[i]].ports|
    ensures s.w[i] in s.v && s.v[s.w[i]] == i && i !in s.lost && s.w[i] !in s.born
    ensures d.l0 in s.w && s.w[d.l0] == d.l1
  {
    assert PairHangs(d, s, i) && PairOk(d.a, i, s.w[i]);
    OutcastsApart(d, s);
  }

  lemma SetFacts(d: Diff, s: Progress)
    requires ValidDiff(d) && ProgressOk(d, s)
    ensures s.done <= s.marked <= s.w.Keys && s.marked <= s.done + {s.cur} && s.cur in s.w
    ensures Outcasts(d, s) && Inverse(s)
    ensures forall j | j in s.v :: s.v[j] in s.w && s.w[s.v[j]] == j
    ensures forall x | x in s.lost :: x !in s.w && x in d.o0
    ensures forall y | y in s.born :: y !in s.v && y in d.o1
    ensures forall j | j in s.v :: j in d.o1
    ensures forall i | i in s.w :: i in d.o0 && s.w[i] in d.o1
  {
    hide *;
    ProgressSets(d, s);
    ProgressInverse(d, s);
    InverseBack(s);
    OutcastsInside(d, s);
    PairsInside(d, s);
  }

  lemma InverseBack(s: Progress)
    requires Inverse(s)
    ensures forall j | j in s.v :: s.v[j] in s.w && s.w[s.v[j]] == j
  {
  }

  lemma OutcastsInside(d: Diff, s: Progress)
    requires Outcasts(d, s)
    ensures forall x | x in s.lost :: x !in s.w && x in d.o0
    ensures forall y | y in s.born :: y !in s.v && y in d.o1
  {
    hide DownClosed;
  }

  lemma PairsInside(d: Diff, s: Progress)
    requires ProgressOk(d, s)
    ensures forall i | i in s.w :: i in d.o0 && s.w[i] in d.o1
    ensures forall j | j in s.v :: j in d.o1
  {
    hide Outcasts, PortRecorded, PairOk, Reached;
    forall i | i in s.w ensures i in d.o0 && s.w[i] in d.o1 {
      assert PairHangs(d, s, i);
    }
  }

  // ---- marking the current pair --------------------------------------------

  lemma MarkStore(d: Diff, s: Progress, a: seq<Node>, i: nat)
    requires ValidDiff(d) && ProgressOk(d, s) && s.port == 0 && s.marked == s.done && i in s.w && i !in s.done
    requires StoreOk(d, s, a) && i < |a| && s.w[i] < |a|
    ensures var j := s.w[i];
      StoreOk(d, s.(cur := i, marked := s.marked + {i}), a[i := Refreshed(a[i], a[j], d.color)][j := a[j].(color := d.color)])
  {
    hide *;
    var j, s' := s.w[i], s.(cur := i, marked := s.marked + {i});
    var b := a[i := Refreshed(a[i], a[j], d.color)][j := a[j].(color := d.color)];
    PairFacts(d, s, i);
    SetFacts(d, s);
    StoreAt(d, s, a, i);
    StoreAt(d, s, a, j);
    forall k | k in d.o0 ensures k < |d.a| && OldOk(d, s', b[k], k) {
      StoreAt(d, s, a, k);
      if k == i {
        MarkOld(d, s, s', a[i], a[j], i);
      } else {
        HandledMark(s, s', k);
        OldSame(d, s, s', a[k], k);
      }
    }
    forall k | k in d.o1 ensures k < |d.a| && NewOk(d, s', b[k], k) {
      StoreAt(d, s, a, k);
      if k == j {
        MarkNew(d, s, s', a[j], j);
      } else {
        if k in s.born {
          PeerMark(d, s, s', k);
        }
        NewSame(d, s, s', a[k], k);
      }
    }
    StoreIntro(d, s', b);
  }

  lemma PeerMark(d: Diff, s: Progress, s': Progress, k: nat)
    requires Outcasts(d, s) && k in s.born && s'.born == s.born && s'.v == s.v
    ensures k in d.o1 && BornBelow(d, s, k) && SamePeer(d, s, s', k)
  {
  }

  lemma HandledMark(s: Progress, s': Progress, k: nat)
    requires s.port == 0 && s'.port == 0 && s'.done == s.done
    ensures forall p: nat :: Handled(s', k, p) <==> Handled(s, k, p)
  {
  }

  lemma MarkOld(d: Diff, s: Progress, s': Progress, n0: Node, n1: Node, i: nat)
    requires i in d.o0 && i in s.w && s.w[i] in d.o1 && i < |d.a| && s.w[i] < |d.a|
    requires |d.a[i].ports| == |d.a[s.w[i]].ports| && s.w[i] in s.v && i !in s.marked && i !in s.lost
    requires OldOk(d, s, n0, i) && NewOk(d, s, n1, s.w[i]) && i !in s.done
    requires s' == s.(cur := i, marked := s.marked + {i}) && s.port == 0
    ensures OldOk(d, s', Refreshed(n0, n1, d.color), i)
  {
  }

  lemma MarkNew(d: Diff, s: Progress, s': Progress, n1: Node, j: nat)
    requires j in d.o1 && j < |d.a| && j in s.v && NewOk(d, s, n1, j) && s'.v == s.v && s.v[j] in s'.marked
    ensures NewOk(d, s', n1.(color := d.color), j)
  {
  }

  // ---- ports that need no change -------------------------------------------

  /** If a handled port already has its final value, the store is right as it is. */
  lemma UnchangedStore(d: Diff, s: Progress, s': Progress, a: seq<Node>)
    requires ValidDiff(d) && Busy(d, s) && Busy(d, s') && StoreOk(d, s, a) && s.port < |d.a[s.cur].ports|
    requires s'.marked == s.marked && s'.done == s.done && s'.cur == s.cur && s'.port == s.port + 1
    requires s'.lost == s.lost && s'.born == s.born
    requires s.w.Keys <= s'.w.Keys && forall i | i in s.w :: s'.w[i] == s.w[i]
    requires s.v.Keys <= s'.v.Keys && forall j | j in s.v :: s'.v[j] == s.v[j]
    requires forall j | j in s'.v && j !in s.v :: s'.v[j] !in s.w
    requires var x, y := d.a[s.cur].ports[s.port], d.a[s.w[s.cur]].ports[s.port]; NewPort(x, y) == x
    ensures StoreOk(d, s', a)
  {
    hide *;
    BusyFacts(d, s);
    BusyFacts(d, s');
    SetFacts(d, s);
    SetFacts(d, s');
    StoreAt(d, s, a, s.cur);
    forall k | k in d.o0 ensures k < |d.a| && OldOk(d, s', a[k], k) {
      StoreAt(d, s, a, k);
      HandledNext(s, s', k);
      if k == s.cur {
        SettledHere(d, s);
      }
      OldSame(d, s, s', a[k], k);
    }
    forall k | k in d.o1 ensures k < |d.a| && NewOk(d, s', a[k], k) {
      StoreAt(d, s, a, k);
      if k in s.born {
        PeerStays(d, s, s', k);
      }
      NewSame(d, s, s', a[k], k);
    }
    StoreIntro(d, s', a);
  }

  lemma HandledNext(s: Progress, s': Progress, k: nat)
    requires s'.done == s.done && s'.cur == s.cur && s'.port == s.port + 1
    ensures forall p: nat :: Handled(s, k, p) ==> Handled(s', k, p)
    ensures forall p: nat :: Handled(s', k, p) && !Handled(s, k, p) ==> k == s.cur && p == s.port
  {
  }

  lemma SettledHere(d: Diff, s: Progress)
    requires s.cur in s.w && s.cur < |d.a| && s.w[s.cur] < |d.a|
    requires s.port < |d.a[s.cur].ports| == |d.a[s.w[s.cur]].ports|
    requires NewPort(d.a[s.cur].ports[s.port], d.a[s.w[s.cur]].ports[s.port]) == d.a[s.cur].ports[s.port]
    ensures Settled(d, s, s.cur, s.port)
  {
  }

  /** Finishing the current node changes nothing in the store. */
  lemma EndStore(d: Diff, s: Progress, a: seq<Node>)
    requires ValidDiff(d) && Busy(d, s) && StoreOk(d, s, a) && s.port == |d.a[s.cur].ports|
    ensures StoreOk(d, s.(done := s.done + {s.cur}, port := 0), a)
  {
    hide *;
    var s' := s.(done := s.done + {s.cur}, port := 0);
    BusyFacts(d, s);
    SetFacts(d, s);
    StoreAt(d, s, a, s.cur);
    forall k | k in d.o0 ensures k < |d.a| && OldOk(d, s', a[k], k) {
      StoreAt(d, s, a, k);
      HandledEnd(d, s, s', k);
      OldSame(d, s, s', a[k], k);
    }
    forall k | k in d.o1 ensures k < |d.a| && NewOk(d, s', a[k], k) {
      StoreAt(d, s, a, k);
      if k in s.born {
        PeerMark(d, s, s', k);
      }
      NewSame(d, s, s', a[k], k);
    }
    StoreIntro(d, s', a);
  }

  lemma HandledEnd(d: Diff, s: Progress, s': Progress, k: nat)
    requires s.cur < |d.a| && s.port == |d.a[s.cur].ports| && s' == s.(done := s.done + {s.cur}, port := 0)
    ensures forall p: nat :: Handled(s, k, p) ==> Handled(s', k, p)
    ensures k in s.w ==> forall p: nat :: Handled(s', k, p) && !Handled(s, k, p) ==> Settled(d, s, k, p)
  {
  }

  // ---- a lost subtree ------------------------------------------------------

  lemma LostWalkReady(d: Diff, s: Progress, a: seq<Node>, x: nat)
    requires ValidDiff(d) && Busy(d, s) && StoreOk(d, s, a) && s.port < |d.a[s.cur].ports|
    requires FreshOld(d, s, s.cur, s.port, x)
    requires forall i | i in d.o0 && Under(d.o0, x, i) :: i !in s.w && i !in s.lost
    ensures SubOk(a, d.o0, x) && Unvisited(a, d.o0, x, d.color)
  {
    forall i | i in d.o0 && Under(d.o0, x, i) ensures a[i] == d.a[i] {
      assert OldOk(d, s, a[i], i);
    }
    OrientedSub(d.a, d.o0, d.l0, x);
    SubByPorts(d.a, a, d.o0, x);
    assert OldOk(d, s, a[s.cur], s.cur);
  }

  lemma LoseStore(d: Diff, s: Progress, s': Progress, a: seq<Node>, b: seq<Node>, order: seq<nat>, x: nat)
    requires ValidDiff(d) && Busy(d, s) && Busy(d, s') && StoreOk(d, s, a) && s.port < |d.a[s.cur].ports|
    requires d.a[s.cur].ports[s.port] == Some(x) && d.a[s.w[s.cur]].ports[s.port] == None
    requires forall i :: i in order <==> i in d.o0 && Under(d.o0, x, i)
    requires Present(a, d.o0, order) && forall i | i in order :: i !in s.w && i !in s.lost
    requires b == VisitAll(a, d.o0, order, d.color, ReportLost)
    requires s.cur < |b| && s.port < |b[s.cur].ports|
    requires s' == s.(port := s.port + 1, lost := s.lost + Below(d.o0, x))
    ensures StoreOk(d, s', b[s.cur := b[s.cur].(ports := b[s.cur].ports[s.port := None])])
  {
    hide *;
    var c := b[s.cur := b[s.cur].(ports := b[s.cur].ports[s.port := None])];
    BusyFacts(d, s);
    BusyFacts(d, s');
    SetFacts(d, s);
    SetFacts(d, s');
    StoreAt(d, s, a, s.cur);
    forall k | k in d.o0 ensures k < |d.a| && OldOk(d, s', c[k], k) {
      StoreAt(d, s, a, k);
      VisitAllFacts(a, d.o0, order, d.color, ReportLost, k);
      HandledNext(s, s', k);
      BelowMember(d, x, k);
      if k == s.cur {
        DropPort(d, s, s', a[k], k);
      } else if k in order {
        LoseOld(d, s, s', a[k], k);
      } else {
        OldSame(d, s, s', a[k], k);
      }
    }
    forall k | k in d.o1 ensures k < |d.a| && NewOk(d, s', c[k], k) {
      StoreAt(d, s, a, k);
      VisitAllFacts(a, d.o0, order, d.color, ReportLost, k);
      if k in s.born {
        PeerMark(d, s, s', k);
      }
      NewSame(d, s, s', a[k], k);
    }
    StoreIntro(d, s', c);
  }

  lemma BelowMember(d: Diff, x: nat, k: nat)
    requires ValidDiff(d)
    ensures k in d.o0 ==> (k in Below(d.o0, x) <==> Under(d.o0, x, k))
    ensures k in d.o1 ==> (k in Below(d.o1, x) <==> Under(d.o1, x, k))
  {
  }

  lemma LoseOld(d: Diff, s: Progress, s': Progress, n: Node, k: nat)
    requires k in d.o0 && k < |d.a| && OldOk(d, s, n, k) && k !in s.marked && k !in s.lost
    requires s'.marked == s.marked && k in s'.lost
    ensures OldOk(d, s', n.(color := d.color), k)
  {
  }

  /** Dropping or replacing the port being handled. */
  lemma DropPort(d: Diff, s: Progress, s': Progress, n: Node, i: nat)
    requires i == s.cur && i in d.o0 && i in s.w && i < |d.a| && s.w[i] < |d.a| && i in s.marked && i !in s.done
    requires s.port < |d.a[i].ports| == |d.a[s.w[i]].ports| && OldOk(d, s, n, i)
    requires s'.marked == s.marked && s'.w == s.w && s'.done == s.done && s'.cur == s.cur && s'.port == s.port + 1
    ensures |n.ports| == |d.a[i].ports|
    ensures OldOk(d, s', n.(ports := n.ports[s.port := NewPort(d.a[i].ports[s.port], d.a[s.w[i]].ports[s.port])]), i)
  {
  }

  // ---- a moved subtree -----------------------------------------------------

  /** The subtree of `y`, now hanging below the old node `top`. */
  ghost function Graft(o: Orient, y: nat, top: nat): Orient
    requires Leveled(o) && y in o && o[y].Hung?
  {
    (map i | i in o && Under(o, y, i) :: if i == y then o[y].(peer := top) else o[i])[top := Top]
  }

  lemma GraftFacts(o: Orient, y: nat, top: nat)
    requires Leveled(o) && y in o && o[y].Hung? && top !in o
    ensures Leveled(Graft(o, y, top))
    ensures forall i | i in o && Under(o, y, i) :: i in Graft(o, y, top) && Under(Graft(o, y, top), y, i)
    ensures forall i | i in Graft(o, y, top) && Under(Graft(o, y, top), y, i) :: i in o && Under(o, y, i)
  {
    hide *;
    var g := Graft(o, y, top);
    GraftLeveled(o, y, top);
    forall i | i in o && Under(o, y, i) ensures i in g && Under(g, y, i) {
      GraftUnder(o, y, top, i);
    }
    forall i | i in g && Under(g, y, i) ensures i in o && Under(o, y, i) {
      UnderGraft(o, y, top, i);
    }
  }

  lemma GraftLeveled(o: Orient, y: nat, top: nat)
    requires Leveled(o) && y in o && o[y].Hung? && top !in o
    ensures Leveled(Graft(o, y, top))
  {
  }

  lemma UnderGraft(o: Orient, y: nat, top: nat, i: nat)
    requires Leveled(o) && y in o && o[y].Hung? && top !in o && Leveled(Graft(o, y, top))
    requires i in Graft(o, y, top) && Under(Graft(o, y, top), y, i)
    ensures i in o && Under(o, y, i)
  {
    assert i != top;
  }

  lemma {:induction false} GraftUnder(o: Orient, y: nat, top: nat, i: nat)
    requires Leveled(o) && y in o && o[y].Hung? && top !in o && i in o && Under(o, y, i)
    requires Leveled(Graft(o, y, top))
    ensures i in Graft(o, y, top) && Under(Graft(o, y, top), y, i)
    decreases Level(o[i])
  {
    if i != y {
      GraftUnder(o, y, top, o[i].peer);
    }
  }

  /** The port that move_tree looks for is the one that leads up. */
  lemma UpPortFound(d: Diff, y: nat, p: nat)
    requires ValidDiff(d) && y in d.o1 && d.o1[y].Hung? && p < |d.a[y].ports|
    ensures d.a[y].ports[p] == Some(d.o1[y].peer) <==> p == d.o1[y].port
    ensures d.o1[y].port < |d.a[y].ports|
  {
    var j := d.o1[y].peer;
    assert NodeOk(d.a, d.o1, y) && UpOk(d.a, d.o1, y) && DownOk(d.a, d.o1, y, p);
    assert NodeOk(d.a, d.o1, j) && UpOk(d.a, d.o1, j);
  }

  /** The store right after move_tree. */
  function Moved(a: seq<Node>, i: nat, p: nat, y: nat, up: nat): seq<Node>
    requires i < |a| && p < |a[i].ports| && y < |a| && i != y && up < |a[y].ports|
  {
    a[i := a[i].(ports := a[i].ports[p := Some(y)])][y := a[y].(ports := a[y].ports[up := Some(i)])]
  }

  /** The new neighbour is untouched before it is moved over. */
  lemma BornUntouched(d: Diff, s: Progress, a: seq<Node>, y: nat)
    requires ValidDiff(d) && Busy(d, s) && StoreOk(d, s, a)
    requires forall i | i in d.o1 && Under(d.o1, y, i) :: i !in s.v && i !in s.born
    ensures forall i | i in d.o1 && Under(d.o1, y, i) :: i < |a| && a[i] == d.a[i]
  {
    hide ProgressOk, Busy;
    forall i | i in d.o1 && Under(d.o1, y, i) ensures i < |a| && a[i] == d.a[i] {
      StoreAt(d, s, a, i);
    }
  }

  lemma BornWalkReady(d: Diff, s: Progress, a: seq<Node>, y: nat)
    requires ValidDiff(d) && Busy(d, s) && StoreOk(d, s, a) && s.port < |d.a[s.cur].ports|
    requires FreshNew(d, s, s.w[s.cur], s.port, y)
    requires forall i | i in d.o1 && Under(d.o1, y, i) :: i !in s.v && i !in s.born
    ensures s.cur < |a| && s.port < |a[s.cur].ports| && y < |a| && s.cur != y && d.o1[y].port < |a[y].ports|
    ensures s.cur !in d.o1
    ensures var b, g := Moved(a, s.cur, s.port, y, d.o1[y].port), Graft(d.o1, y, s.cur);
      Leveled(g) && SubOk(b, g, y) && Unvisited(b, g, y, d.color)
  {
    hide *;
    var i := s.cur;
    BusyFacts(d, s);
    DiffLeveled(d);
    FreshNewIs(d, s, s.w[s.cur], s.port, y);
    UnderSelf(d.o1, y);
    BornUntouched(d, s, a, y);
    GraftPoint(d, s, a, y);
    var b, g := Moved(a, i, s.port, y, d.o1[y].port), Graft(d.o1, y, i);
    MovedIs(a, i, s.port, y, d.o1[y].port);
    GraftFacts(d.o1, y, i);
    GraftSub(d, b, y, i);
    GraftUnvisited(d, s, a, b, y);
  }

  lemma UnderSelf(o: Orient, y: nat)
    requires Leveled(o) && y in o
    ensures Under(o, y, y)
  {
  }

  lemma GraftPoint(d: Diff, s: Progress, a: seq<Node>, y: nat)
    requires ValidDiff(d) && Busy(d, s) && StoreOk(d, s, a) && s.port < |d.a[s.cur].ports|
    requires y in d.o1 && d.o1[y].Hung? && y < |a| && a[y] == d.a[y]
    ensures s.cur < |a| && |a[s.cur].ports| == |d.a[s.cur].ports| && a[s.cur].color == d.color
    ensures s.cur !in d.o1 && s.cur != y && d.o1[y].port < |a[y].ports| && |a| == |d.a|
  {
    hide ProgressOk, NewOk;
    assert NodeOk(d.a, d.o1, y);
    assert OldOk(d, s, a[s.cur], s.cur);
  }

  lemma GraftUnvisited(d: Diff, s: Progress, a: seq<Node>, b: seq<Node>, y: nat)
    requires ValidDiff(d) && y in d.o1 && d.o1[y].Hung? && s.cur !in d.o1
    requires s.cur < |a| && y < |a| && s.cur != y && s.port < |a[s.cur].ports| && d.o1[y].port < |a[y].ports|
    requires b == Moved(a, s.cur, s.port, y, d.o1[y].port) && a[s.cur].color == d.color
    requires forall i | i in d.o1 && Under(d.o1, y, i) :: i < |a| && a[i] == d.a[i]
    requires var g := Graft(d.o1, y, s.cur);
      Leveled(g) && forall i | i in g && Under(g, y, i) :: i in d.o1 && Under(d.o1, y, i)
    ensures Unvisited(b, Graft(d.o1, y, s.cur), y, d.color)
  {
    hide Under;
    var g := Graft(d.o1, y, s.cur);
    forall k | k in g && Under(g, y, k) ensures k < |b| && b[k].color != d.color {
      assert k in d.o1 && Under(d.o1, y, k);
    }
  }

  lemma GraftSub(d: Diff, b: seq<Node>, y: nat, top: nat)
    requires ValidDiff(d) && y in d.o1 && d.o1[y].Hung? && top !in d.o1 && top < |b| && Leveled(Graft(d.o1, y, top))
    requires |b| == |d.a| && d.o1[y].port < |d.a[y].ports|
    requires forall i | i in d.o1 && Under(d.o1, y, i) ::
      b[i].ports == if i == y then d.a[y].ports[d.o1[y].port := Some(top)] else d.a[i].ports
    ensures SubOk(b, Graft(d.o1, y, top), y)
  {
    var g := Graft(d.o1, y, top);
    assert Under(d.o1, y, y);
    GraftFacts(d.o1, y, top);
    forall i | i in g && Under(g, y, i) ensures i < |b| && SubNodeOk(b, g, y, i) {
      GraftNode(d, b, y, top, i);
    }
  }

  lemma GraftNode(d: Diff, b: seq<Node>, y: nat, top: nat, i: nat)
    requires ValidDiff(d) && y in d.o1 && d.o1[y].Hung? && top !in d.o1 && top < |b|
    requires |b| == |d.a| && d.o1[y].port < |d.a[y].ports|
    requires forall i | i in d.o1 && Under(d.o1, y, i) ::
      b[i].ports == if i == y then d.a[y].ports[d.o1[y].port := Some(top)] else d.a[i].ports
    requires i in d.o1 && Under(d.o1, y, i)
    ensures i in Graft(d.o1, y, top) && i < |b| && SubNodeOk(b, Graft(d.o1, y, top), y, i)
  {
    var g := Graft(d.o1, y, top);
    assert NodeOk(d.a, d.o1, i);
    if i != y {
      assert UpOk(d.a, d.o1, i) && Under(d.o1, y, d.o1[i].peer);
      assert UpOk(b, g, i);
    }
    forall p | 0 <= p < |b[i].ports| ensures DownOk(b, g, i, p) {
      assert DownOk(d.a, d.o1, i, p);
      if b[i].ports[p].Some? && !IsUp(g[i], p) {
        var k := b[i].ports[p].value;
        assert d.a[i].ports[p] == Some(k) && k in d.o1 && d.o1[k].peer == i;
        assert k != y by {
          RootNotUnderChild(d.o1, y, i);
        }
        assert Under(d.o1, y, k);
      }
    }
  }

  lemma BearStore(d: Diff, s: Progress, s': Progress, a: seq<Node>, b: seq<Node>, g: Orient, order: seq<nat>, y: nat)
    requires s.cur in s.w && s.cur < |d.a| && s.w[s.cur] < |d.a|
    requires s.port < |d.a[s.cur].ports| == |d.a[s.w[s.cur]].ports|
    requires d.a[s.cur].ports[s.port] == None && d.a[s.w[s.cur]].ports[s.port] == Some(y)
    requires FreshNew(d, s, s.w[s.cur], s.port, y)
    requires s.cur < |a| && s.port < |a[s.cur].ports| && y < |a| && s.cur != y
    requires y in d.o1 && d.o1[y].Hung? && d.o1[y].port < |a[y].ports|
    requires b == Moved(a, s.cur, s.port, y, d.o1[y].port)
    requires forall i | i in order :: i < |a| && i < |d.a| && a[i] == d.a[i] && i !in s.v && i !in s.born && i in g
    requires ValidDiff(d) && forall i :: i in order <==> i in d.o1 && Under(d.o1, y, i)
    requires s' == s.(port := s.port + 1, born := s.born + Below(d.o1, y))
    requires Busy(d, s) && Busy(d, s') && StoreOk(d, s, a)
    ensures StoreOk(d, s', VisitAll(b, g, order, d.color, ReportFound))
  {
    hide *;
    BusyFacts(d, s);
    BusyFacts(d, s');
    SetFacts(d, s);
    SetFacts(d, s');
    var i, j := s.cur, s.w[s.cur];
    PairFacts(d, s, i);
    StoreAt(d, s, a, i);
    FreshNewIs(d, s, j, s.port, y);
    MovedIs(a, i, s.port, y, d.o1[y].port);
    TopIsBelow(d, y);
    PresentIs(b, g, order);
    var c := VisitAll(b, g, order, d.color, ReportFound);
    StoreAt(d, s, a, y);
    forall k | k in d.o0 ensures k < |d.a| && OldOk(d, s', c[k], k) {
      StoreAt(d, s, a, k);
      VisitAllFacts(b, g, order, d.color, ReportFound, k);
      HandledNext(s, s', k);
      if k == i {
        DropPort(d, s, s', a[k], k);
      } else {
        OldSame(d, s, s', a[k], k);
      }
    }
    forall k | k in d.o1 ensures k < |d.a| && NewOk(d, s', c[k], k) {
      StoreAt(d, s, a, k);
      VisitAllFacts(b, g, order, d.color, ReportFound, k);
      BelowMember(d, y, k);
      if k in order {
        BornNew(d, s, s', c[k], k, y);
      } else {
        if k in s.born {
          PeerStays(d, s, s', k);
        }
        NewSame(d, s, s', a[k], k);
      }
    }
    StoreIntro(d, s', c);
  }

  lemma MovedIs(a: seq<Node>, i: nat, p: nat, y: nat, up: nat)
    requires i < |a| && p < |a[i].ports| && y < |a| && i != y && up < |a[y].ports|
    ensures var b := Moved(a, i, p, y, up);
      && |b| == |a| && b[i] == a[i].(ports := a[i].ports[p := Some(y)])
      && b[y] == a[y].(ports := a[y].ports[up := Some(i)])
      && forall k | 0 <= k < |a| && k != i && k != y :: b[k] == a[k]
  {
  }

  lemma TopIsBelow(d: Diff, y: nat)
    requires ValidDiff(d) && y in d.o1
    ensures Under(d.o1, y, y)
    ensures forall i | i in d.o1 && Under(d.o1, y, i) :: i in Below(d.o1, y)
    ensures forall i | i in Below(d.o1, y) :: i in d.o1 && Under(d.o1, y, i)
  {
  }

  lemma BornNew(d: Diff, s: Progress, s': Progress, n: Node, k: nat, y: nat)
    requires ValidDiff(d) && y in d.o1 && d.o1[y].Hung? && d.o1[y].peer in s'.v && d.o1[y].peer !in s'.born
    requires k in d.o1 && Under(d.o1, y, k) && k !in s'.v && k in s'.born && Below(d.o1, y) <= s'.born
    requires d.o1[y].port < |d.a[y].ports|
    requires n == d.a[k].(color := d.color, maxSpeed := n.maxSpeed, bPath := n.bPath,
      ports := if k == y then d.a[y].ports[d.o1[y].port := Some(s'.v[d.o1[y].peer])] else d.a[k].ports)
    ensures NewOk(d, s', n, k)
  {
    if k != y {
      assert d.o1[k].peer in Below(d.o1, y);
    }
  }
}
