/** The colour-marked walk over a tree of nodes: which nodes it visits, in which order,
    with which parent, and what the callbacks leave behind. */
module TreeWalk {
  import opened Basics
  import opened NodeStore
  import opened BuildTree
  import opened Orientation

  datatype Callback = ReportFound | ReportLost

  datatype Event = Created | Updated | Destroyed | LinkTurnedOn | LinkTurnedOff | ResetInitiated

  /** Effect of a callback on the node it is called for. */
  function Reported(n: Node, parent: Option<Node>, cb: Callback): Node {
    match cb
    case ReportLost => n
    case ReportFound =>
      var beta := n.phySpeed == SCODE_BETA;
      if parent.None? then n.(maxSpeed := n.phySpeed, bPath := beta)
      else n.(maxSpeed := Min(parent.value.maxSpeed, n.phySpeed), bPath := parent.value.bPath && beta)
  }

  function EventOf(cb: Callback): Event { if cb.ReportLost? then Destroyed else Created }

  function NodeAt(a: seq<Node>, r: Option<nat>): Option<Node> {
    if r.Some? && r.value < |a| then Some(a[r.value]) else None
  }

  function ParentRef(h: Hang): Option<nat> { if h.Hung? then Some(h.peer) else None }

  /** All of `order` are nodes of the store that the orientation knows. */
  ghost predicate Present(a: seq<Node>, o: Orient, order: seq<nat>) {
    forall i | i in order :: i in o && i < |a|
  }

  lemma PresentIs(a: seq<Node>, o: Orient, order: seq<nat>)
    ensures Present(a, o, order) <==> forall i | i in order :: i in o && i < |a|
  {
  }

  lemma PresentPrefix(a: seq<Node>, o: Orient, order: seq<nat>, n: nat)
    requires n <= |order| && Present(a, o, order)
    ensures Present(a, o, order[..n])
  {
    forall i | i in order[..n] ensures i in o && i < |a| {
      assert i in order;
    }
  }

  /** The store after `order` was visited, each node with its parent in the orientation. */
  function VisitAll(a: seq<Node>, o: Orient, order: seq<nat>, color: nat, cb: Callback): (r: seq<Node>)
    requires Present(a, o, order)
    ensures |r| == |a|
  {
    if order == [] then a else
    PresentPrefix(a, o, order, |order| - 1);
    var i, b := order[|order| - 1], VisitAll(a, o, order[..|order| - 1], color, cb);
    assert i in order;
    b[i := Reported(b[i].(color := color), NodeAt(b, ParentRef(o[i])), cb)]
  }

  function Events(order: seq<nat>, cb: Callback): seq<(nat, Event)> {
    seq(|order|, m requires 0 <= m < |order| => (order[m], EventOf(cb)))
  }

  /** Visiting changes colours (and speeds) of the visited nodes, never links. */
  lemma {:induction false} VisitAllFacts(a: seq<Node>, o: Orient, order: seq<nat>, color: nat, cb: Callback, i: nat)
    requires Present(a, o, order) && i < |a|
    ensures var r := VisitAll(a, o, order, color, cb);
      && r[i] == a[i].(color := r[i].color, maxSpeed := r[i].maxSpeed, bPath := r[i].bPath)
      && (i !in order ==> r[i] == a[i])
      && (i in order ==> r[i].color == color)
      && (cb.ReportLost? && i in order ==> r[i] == a[i].(color := color))
  {
    if order != [] {
      PresentPrefix(a, o, order, |order| - 1);
      VisitAllFacts(a, o, order[..|order| - 1], color, cb, i);
      if order[|order| - 1] != i {
        assert i in order ==> i in order[..|order| - 1];
      }
    }
  }

  // ---- one node's ports ----------------------------------------------------

  /** Neighbours behind the first `n` ports that are not coloured yet. */
  function Pick(a: seq<Node>, ports: seq<Option<nat>>, n: nat, color: nat): seq<nat>
    requires n <= |ports|
  {
    if n == 0 then [] else
    var s := Pick(a, ports, n - 1, color);
    if ports[n - 1].Some? && ports[n - 1].value < |a| && a[ports[n - 1].value].color != color
    then s + [ports[n - 1].value] else s
  }

  /** The parent the code remembers after the first `n` ports. */
  function Seen(a: seq<Node>, ports: seq<Option<nat>>, n: nat, color: nat, parent: Option<nat>): Option<nat>
    requires n <= |ports|
  {
    if n == 0 then parent else
    if ports[n - 1].Some? && ports[n - 1].value < |a| && a[ports[n - 1].value].color == color
    then ports[n - 1] else Seen(a, ports, n - 1, color, parent)
  }

  // ---- the walk ------------------------------------------------------------

  /** The part of the store below `root` is a tree; the node above `root` is a neighbour. */
  ghost predicate SubOk(a: seq<Node>, o: Orient, root: nat)
    requires Leveled(o)
  {
    && root in o
    && (forall i | i in o && Under(o, root, i) :: i < |a| && SubNodeOk(a, o, root, i))
    && (o[root].Hung? ==>
          o[root].peer < |a| && o[root].port < |a[root].ports| && a[root].ports[o[root].port] == Some(o[root].peer))
  }

  ghost predicate SubNodeOk(a: seq<Node>, o: Orient, root: nat, i: nat)
    requires i in o && i < |a|
  {
    (i != root ==> UpOk(a, o, i)) && forall p :: 0 <= p < |a[i].ports| ==> DownOk(a, o, i, p)
  }

  lemma OrientedSub(a: seq<Node>, o: Orient, top: nat, root: nat)
    requires Oriented(a, o, top) && Leveled(o) && root in o
    ensures SubOk(a, o, root)
  {
    assert NodeOk(a, o, root);
    forall i | i in o && Under(o, root, i) ensures i < |a| && SubNodeOk(a, o, root, i) {
      assert NodeOk(a, o, i);
    }
  }

  lemma SubByPorts(a: seq<Node>, b: seq<Node>, o: Orient, root: nat)
    requires Leveled(o) && SubOk(a, o, root)
    requires |a| <= |b| && forall i | i in o && Under(o, root, i) :: a[i].ports == b[i].ports
    ensures SubOk(b, o, root)
  {
    forall i | i in o && Under(o, root, i) ensures SubNodeOk(b, o, root, i) {
      assert SubNodeOk(a, o, root, i);
      if i != root {
        assert Under(o, root, o[i].peer);
        assert UpOk(b, o, i);
      }
      forall p | 0 <= p < |b[i].ports| ensures DownOk(b, o, i, p) {
        assert DownOk(a, o, i, p);
      }
    }
    assert Under(o, root, root);
  }

  /** Every node but the first comes after its parent. */
  ghost predicate ParentsFirst(o: Orient, queue: seq<nat>) {
    forall m :: 0 < m < |queue| ==> queue[m] in o && o[queue[m]].Hung? && o[queue[m]].peer in queue[..m]
  }

  /** `queue` holds the nodes found so far, the first `pos` of them visited. */
  ghost predicate Walk(o: Orient, root: nat, queue: seq<nat>, pos: nat)
    requires Leveled(o)
  {
    && pos <= |queue| && queue != [] && queue[0] == root && Distinct(queue) && ParentsFirst(o, queue)
    && (forall i | i in queue :: i in o && Under(o, root, i))
    && (forall i | i in queue && i != root :: o[i].Hung? && o[i].peer in queue[..pos])
    && (forall i | i in o && o[i].Hung? && o[i].peer in queue[..pos] :: i in queue)
  }

  /** A child of the node being visited has not been found before. */
  lemma ChildIsNew(o: Orient, root: nat, queue: seq<nat>, pos: nat, k: nat)
    requires Leveled(o) && Walk(o, root, queue, pos) && pos < |queue|
    requires k in o && o[k].Hung? && o[k].peer == queue[pos]
    ensures k !in queue && Under(o, root, k)
  {
    var n := queue[pos];
    assert n in queue && Under(o, root, n);
    if k == root {
      RootNotUnderChild(o, root, n);
    }
    assert n !in queue[..pos];
  }

  lemma {:induction false} UnderLevel(o: Orient, r: nat, i: nat)
    requires Leveled(o) && i in o && r in o && Under(o, r, i)
    ensures Level(o[r]) <= Level(o[i])
    decreases Level(o[i])
  {
    if i != r {
      UnderLevel(o, r, o[i].peer);
    }
  }

  lemma RootNotUnderChild(o: Orient, root: nat, n: nat)
    requires Leveled(o) && root in o && n in o && Under(o, root, n)
    ensures !(o[root].Hung? && o[root].peer == n)
  {
    UnderLevel(o, root, n);
  }

  /** Colours while `queue[pos]` is being visited. */
  ghost predicate Colored(a: seq<Node>, o: Orient, root: nat, queue: seq<nat>, pos: nat, color: nat)
    requires Leveled(o) && pos < |queue|
  {
    && (forall i | i in o && Under(o, root, i) :: i < |a| && (a[i].color == color <==> i in queue[..pos + 1]))
    && (root in o && o[root].Hung? ==> o[root].peer < |a| && a[o[root].peer].color == color)
  }

  /** The port loop enqueues exactly the children, each once, and sees exactly the parent. */
  ghost predicate Picked(o: Orient, n: nat, p: nat, picked: seq<nat>) {
    && Distinct(picked)
    && (forall k :: k in picked <==> k in o && o[k].Hung? && o[k].peer == n && o[k].slot < p)
  }

  /** What lies behind port `p` of the node being visited. */
  ghost predicate PortKind(a: seq<Node>, o: Orient, n: nat, p: nat, color: nat)
    requires n in o && n < |a| && p < |a[n].ports|
  {
    var q := a[n].ports[p];
    && (q.Some? ==> q.value < |a|)
    && (q.Some? && IsUp(o[n], p) ==> q.value == o[n].peer && a[q.value].color == color)
    && (q.Some? && !IsUp(o[n], p) ==> a[q.value].color != color)
    && (q.Some? && !IsUp(o[n], p) ==> q.value in o && o[q.value].Hung? && o[q.value].peer == n && o[q.value].slot == p)
    && (IsUp(o[n], p) ==> q.Some?)
    && (forall k | k in o && o[k].Hung? && o[k].peer == n && o[k].slot == p :: q == Some(k) && !IsUp(o[n], p))
  }

  lemma PortKindOk(a: seq<Node>, o: Orient, root: nat, queue: seq<nat>, pos: nat, color: nat, p: nat)
    requires Leveled(o) && SubOk(a, o, root) && Walk(o, root, queue, pos) && pos < |queue|
    requires Colored(a, o, root, queue, pos, color)
    requires queue[pos] in o && queue[pos] < |a| && p < |a[queue[pos]].ports|
    ensures PortKind(a, o, queue[pos], p, color)
  {
    var n := queue[pos];
    var q := a[n].ports[p];
    assert n in queue && Under(o, root, n);
    assert SubNodeOk(a, o, root, n) && DownOk(a, o, n, p);
    PortSlot(a, o, root, n, p);
    if q.Some? {
      if IsUp(o[n], p) {
        UpIsColored(a, o, root, queue, pos, color);
      } else {
        ChildIsNew(o, root, queue, pos, q.value);
        assert q.value !in queue[..pos + 1];
      }
    }
  }

  lemma {:induction false} PortsPick(a: seq<Node>, o: Orient, n: nat, color: nat, parent: Option<nat>, p: nat)
    requires n in o && n < |a| && p <= |a[n].ports|
    requires forall q :: 0 <= q < |a[n].ports| ==> PortKind(a, o, n, q, color)
    ensures Picked(o, n, p, Pick(a, a[n].ports, p, color))
    ensures Seen(a, a[n].ports, p, color, parent)
      == if o[n].Hung? && o[n].port < p then Some(o[n].peer) else parent
  {
    if p > 0 {
      PortsPick(a, o, n, color, parent, p - 1);
      assert PortKind(a, o, n, p - 1, color);
      PickStep(o, n, p - 1, Pick(a, a[n].ports, p - 1, color), a[n].ports[p - 1], IsUp(o[n], p - 1));
    }
  }

  /** A child at slot `p` is what port `p` points to. */
  lemma PortSlot(a: seq<Node>, o: Orient, root: nat, n: nat, p: nat)
    requires Leveled(o) && SubOk(a, o, root) && n in o && Under(o, root, n) && n < |a|
    ensures forall k | k in o && o[k].Hung? && o[k].peer == n ::
      o[k].slot < |a[n].ports| && (o[k].slot == p ==> a[n].ports[p] == Some(k) && !IsUp(o[n], p))
  {
    forall k | k in o && o[k].Hung? && o[k].peer == n
      ensures o[k].slot < |a[n].ports| && (o[k].slot == p ==> a[n].ports[p] == Some(k) && !IsUp(o[n], p))
    {
      RootNotUnderChild(o, root, n);
      assert k != root && Under(o, root, k);
      assert SubNodeOk(a, o, root, k) && UpOk(a, o, k);
    }
  }

  lemma UpIsColored(a: seq<Node>, o: Orient, root: nat, queue: seq<nat>, pos: nat, color: nat)
    requires Leveled(o) && root in o && Walk(o, root, queue, pos) && pos < |queue|
    requires Colored(a, o, root, queue, pos, color) && o[queue[pos]].Hung?
    ensures var u := o[queue[pos]].peer; u < |a| && a[u].color == color
  {
    var n := queue[pos];
    assert n in queue;
    if n != root {
      var u := o[n].peer;
      assert u in queue[..pos];
      var m :| 0 <= m < pos && queue[m] == u;
      assert u in queue && queue[..pos + 1][m] == u;
    }
  }

  lemma PickStep(o: Orient, n: nat, p: nat, s: seq<nat>, q: Option<nat>, up: bool)
    requires Picked(o, n, p, s)
    requires q.Some? && !up ==> q.value in o && o[q.value].Hung? && o[q.value].peer == n && o[q.value].slot == p
    requires forall k | k in o && o[k].Hung? && o[k].peer == n && o[k].slot == p :: q == Some(k) && !up
    ensures Picked(o, n, p + 1, if q.Some? && !up then s + [q.value] else s)
  {
    if q.Some? && !up {
      assert q.value !in s;
      assert Distinct(s + [q.value]);
    }
  }

  /** Visiting one node keeps the walk going. */
  lemma WalkStep(o: Orient, root: nat, queue: seq<nat>, pos: nat, picked: seq<nat>, ports: nat)
    requires Leveled(o) && root in o && Walk(o, root, queue, pos) && pos < |queue| && queue[pos] in o
    requires Picked(o, queue[pos], ports, picked)
    requires forall k | k in o && o[k].Hung? && o[k].peer == queue[pos] :: o[k].slot < ports
    ensures Walk(o, root, queue + picked, pos + 1)
  {
    hide ParentsFirst, Distinct, Under;
    var n, q := queue[pos], queue + picked;
    assert q[..pos + 1] == queue[..pos] + [n];
    forall k | k in picked ensures k !in queue && Under(o, root, k) && o[k].Hung? && o[k].peer == n {
      ChildIsNew(o, root, queue, pos, k);
    }
    DistinctAppend(queue, picked);
    ParentsFirstAppend(o, queue, picked, pos);
    assert q[0] == root;
  }

  lemma ParentsFirstAppend(o: Orient, queue: seq<nat>, picked: seq<nat>, pos: nat)
    requires ParentsFirst(o, queue) && pos < |queue|
    requires forall k | k in picked :: k in o && o[k].Hung? && o[k].peer == queue[pos]
    ensures ParentsFirst(o, queue + picked)
  {
    var q := queue + picked;
    forall m | 0 < m < |q| ensures q[m] in o && o[q[m]].Hung? && o[q[m]].peer in q[..m] {
      if m < |queue| {
        assert q[..m] == queue[..m];
      } else {
        assert q[m] in picked;
        assert q[..m][pos] == queue[pos];
      }
    }
  }

  lemma DistinctAppend<T>(a: seq<T>, b: seq<T>)
    requires Distinct(a) && Distinct(b) && forall x | x in b :: x !in a
    ensures Distinct(a + b)
  {
    var s := a + b;
    forall i, j | 0 <= i < j < |s| ensures s[i] != s[j] {
      if i < |a| <= j {
        assert s[j] in b && s[i] in a;
      }
    }
  }

  lemma {:induction false} DistinctBound<T>(s: seq<T>, u: set<T>)
    requires Distinct(s) && forall x | x in s :: x in u
    ensures |s| <= |u|
  {
    if s != [] {
      var last, front := s[|s| - 1], s[..|s| - 1];
      forall x | x in front ensures x in u - {last} {
        assert x in s;
      }
      DistinctBound(front, u - {last});
      assert last in s;
    }
  }

  /** When everything found has been visited, that is the whole subtree. */
  lemma WalkEnd(o: Orient, root: nat, queue: seq<nat>)
    requires Leveled(o) && root in o && Walk(o, root, queue, |queue|)
    ensures forall i :: i in queue <==> i in o && Under(o, root, i)
  {
    var s := set i | i in queue;
    assert queue[..|queue|] == queue;
    forall i | i in o && o[i].Hung? && o[i].peer in s ensures i in s {
      assert o[i].peer in queue;
    }
    forall i | i in o && Under(o, root, i) ensures i in queue {
      assert queue[0] == root;
      CoversSubtree(o, s, root, i);
    }
  }

  // ---- one round of the loop -----------------------------------------------

  /** Before the walk: nothing below `root` is coloured, the node above it is. */
  ghost predicate Unvisited(a: seq<Node>, o: Orient, root: nat, color: nat)
    requires Leveled(o)
  {
    && (forall i | i in o && Under(o, root, i) :: i < |a| && a[i].color != color)
    && (root in o && o[root].Hung? ==> o[root].peer < |a| && a[o[root].peer].color == color)
  }

  lemma WalkStart(a: seq<Node>, o: Orient, root: nat, color: nat, cb: Callback)
    requires Leveled(o) && root in o
    ensures Walk(o, root, [root], 0)
    ensures [root][..0] == [] && Present(a, o, []) && VisitAll(a, o, [], color, cb) == a && Events([], cb) == []
  {
  }

  lemma QueueInStore(a: seq<Node>, o: Orient, root: nat, queue: seq<nat>, pos: nat)
    requires Leveled(o) && SubOk(a, o, root) && Walk(o, root, queue, pos)
    ensures Present(a, o, queue[..pos])
    ensures Present(a, o, queue)
    ensures |queue| <= |o.Keys| && pos <= |queue|
    ensures pos < |queue| ==> queue[pos] < |a| && Present(a, o, queue[..pos + 1])
  {
    hide SubNodeOk, Under;
    PresentPrefix(a, o, queue, pos);
    if pos < |queue| {
      PresentPrefix(a, o, queue, pos + 1);
      assert queue[pos] in queue;
    }
    DistinctBound(queue, o.Keys);
  }

  /** Colouring the node that is being visited. */
  lemma StepColors(a0: seq<Node>, a: seq<Node>, o: Orient, root: nat, queue: seq<nat>, pos: nat,
                   color: nat, cb: Callback, b: seq<Node>)
    requires Leveled(o) && SubOk(a0, o, root) && Walk(o, root, queue, pos) && pos < |queue|
    requires Unvisited(a0, o, root, color)
    requires Present(a0, o, queue[..pos])
    requires a == VisitAll(a0, o, queue[..pos], color, cb)
    requires queue[pos] < |a| && b == a[queue[pos] := a[queue[pos]].(color := color)]
    ensures queue[pos] in o && SubOk(b, o, root) && Colored(b, o, root, queue, pos, color)
  {
    hide *;
    QueuedUnder(o, root, queue, pos);
    VisitAllLength(a0, o, queue[..pos], color, cb);
    forall i | 0 <= i < |a0| ensures StepColor(a0, b, queue, pos, color, i) {
      StepColorAt(a0, a, o, queue, pos, color, cb, b, i);
    }
    forall i | i in o && Under(o, root, i) ensures i < |a0| && a0[i].ports == b[i].ports {
      SubInStore(a0, o, root, i);
      StepColorIs(a0, b, queue, pos, color, i);
    }
    SubByPorts(a0, b, o, root);
    StepColored(a0, b, o, root, queue, pos, color);
  }

  lemma VisitAllLength(a: seq<Node>, o: Orient, order: seq<nat>, color: nat, cb: Callback)
    requires Present(a, o, order)
    ensures |VisitAll(a, o, order, color, cb)| == |a|
  {
  }

  lemma QueuedUnder(o: Orient, root: nat, queue: seq<nat>, pos: nat)
    requires Leveled(o) && Walk(o, root, queue, pos) && pos < |queue|
    ensures queue[pos] in o && root in o && Under(o, root, queue[pos])
  {
    hide Under, ParentsFirst, Distinct;
    assert queue[pos] in queue && queue[0] in queue;
  }

  lemma StepColorAt(a0: seq<Node>, a: seq<Node>, o: Orient, queue: seq<nat>, pos: nat,
                    color: nat, cb: Callback, b: seq<Node>, i: nat)
    requires pos < |queue| && Present(a0, o, queue[..pos])
    requires a == VisitAll(a0, o, queue[..pos], color, cb) && |a| == |a0|
    requires queue[pos] < |a| && b == a[queue[pos] := a[queue[pos]].(color := color)] && i < |a0|
    ensures StepColor(a0, b, queue, pos, color, i)
  {
    hide VisitAll;
    VisitAllFacts(a0, o, queue[..pos], color, cb, i);
    assert queue[..pos + 1] == queue[..pos] + [queue[pos]];
  }

  lemma StepColorIs(a0: seq<Node>, b: seq<Node>, queue: seq<nat>, pos: nat, color: nat, i: nat)
    requires i < |a0| <= |b| && pos < |queue| && StepColor(a0, b, queue, pos, color, i)
    ensures b[i].ports == a0[i].ports && (b[i].color == if i in queue[..pos + 1] then color else a0[i].color)
  {
  }

  lemma StepColored(a0: seq<Node>, b: seq<Node>, o: Orient, root: nat, queue: seq<nat>, pos: nat, color: nat)
    requires Leveled(o) && root in o && Walk(o, root, queue, pos) && pos < |queue| && |a0| == |b|
    requires Unvisited(a0, o, root, color)
    requires forall i | 0 <= i < |a0| :: StepColor(a0, b, queue, pos, color, i)
    ensures Colored(b, o, root, queue, pos, color)
  {
    hide Under;
    forall i | i in o && Under(o, root, i)
      ensures i < |b| && (b[i].color == color <==> i in queue[..pos + 1])
    {
      assert StepColor(a0, b, queue, pos, color, i);
    }
    if o[root].Hung? {
      assert StepColor(a0, b, queue, pos, color, o[root].peer);
    }
  }

  /** Visiting changes the colour of the visited nodes only, and no ports. */
  ghost predicate StepColor(a0: seq<Node>, b: seq<Node>, queue: seq<nat>, pos: nat, color: nat, i: nat)
    requires i < |a0| <= |b| && pos < |queue|
  {
    b[i].ports == a0[i].ports && b[i].color == if i in queue[..pos + 1] then color else a0[i].color
  }

  lemma SubInStore(a: seq<Node>, o: Orient, root: nat, i: nat)
    requires Leveled(o) && SubOk(a, o, root) && i in o && Under(o, root, i)
    ensures i < |a|
  {
  }

  /** After the port loop: the queue has grown by the children, and the parent is the true one. */
  lemma StepPorts(b: seq<Node>, o: Orient, root: nat, queue: seq<nat>, pos: nat, color: nat, parent: Option<nat>)
    requires Leveled(o) && SubOk(b, o, root) && Walk(o, root, queue, pos) && pos < |queue|
    requires Colored(b, o, root, queue, pos, color) && queue[pos] in o && queue[pos] < |b|
    ensures var n := queue[pos]; var ports := b[n].ports;
      && Walk(o, root, queue + Pick(b, ports, |ports|, color), pos + 1)
      && Seen(b, ports, |ports|, color, parent) == (if o[n].Hung? then Some(o[n].peer) else parent)
      && (o[n].Hung? ==> o[n].peer != n)
  {
    hide Colored, SubOk, SubNodeOk, Under;
    var n := queue[pos];
    var ports := b[n].ports;
    assert n in queue;
    UpPortValid(b, o, root, n);
    forall q | 0 <= q < |ports| ensures PortKind(b, o, n, q, color) {
      PortKindOk(b, o, root, queue, pos, color, q);
    }
    PortsPick(b, o, n, color, parent, |ports|);
    PortSlot(b, o, root, n, 0);
    WalkStep(o, root, queue, pos, Pick(b, ports, |ports|, color), |ports|);
  }

  lemma UpPortValid(b: seq<Node>, o: Orient, root: nat, n: nat)
    requires Leveled(o) && SubOk(b, o, root) && n in o && Under(o, root, n)
    ensures n < |b| && (o[n].Hung? ==> o[n].port < |b[n].ports| && o[n].peer != n)
  {
    assert SubNodeOk(b, o, root, n);
    if n != root {
      assert UpOk(b, o, n);
    }
  }

  lemma PortsValid(b: seq<Node>, o: Orient, root: nat, n: nat)
    requires Leveled(o) && SubOk(b, o, root) && n in o && Under(o, root, n)
    ensures n < |b| && forall p | p in b[n].ports && p.Some? :: p.value < |b|
  {
    assert SubNodeOk(b, o, root, n);
    if n != root {
      assert UpOk(b, o, n);
    }
    forall p | 0 <= p < |b[n].ports| && b[n].ports[p].Some? ensures b[n].ports[p].value < |b| {
      assert DownOk(b, o, n, p);
      if !IsUp(o[n], p) {
        assert Under(o, root, b[n].ports[p].value);
      }
    }
  }

  /** Visiting one more node of the queue. */
  lemma StepVisit(a0: seq<Node>, o: Orient, queue: seq<nat>, more: seq<nat>, pos: nat, color: nat, cb: Callback)
    requires pos < |queue| && Present(a0, o, queue[..pos + 1])
    requires o[queue[pos]].Hung? ==> o[queue[pos]].peer != queue[pos]
    ensures (queue + more)[..pos + 1] == queue[..pos + 1]
    ensures Present(a0, o, queue[..pos])
    ensures var n, a := queue[pos], VisitAll(a0, o, queue[..pos], color, cb);
      && n < |a|
      && VisitAll(a0, o, queue[..pos + 1], color, cb)
         == (var b := a[n := a[n].(color := color)]; b[n := Reported(b[n], NodeAt(b, ParentRef(o[n])), cb)])
      && Events(queue[..pos + 1], cb) == Events(queue[..pos], cb) + [(n, EventOf(cb))]
  {
    var n, q := queue[pos], queue[..pos + 1];
    assert q[..|q| - 1] == queue[..pos] && q[|q| - 1] == n && n in q;
    PresentPrefix(a0, o, q, pos);
    VisitLast(a0, o, q, color, cb);
  }

  lemma VisitLast(a: seq<Node>, o: Orient, order: seq<nat>, color: nat, cb: Callback)
    requires order != [] && Present(a, o, order)
    ensures var n := order[|order| - 1];
      && n in order && n in o && n < |a| && Present(a, o, order[..|order| - 1])
      && var b := VisitAll(a, o, order[..|order| - 1], color, cb);
         VisitAll(a, o, order, color, cb) == b[n := Reported(b[n].(color := color), NodeAt(b, ParentRef(o[n])), cb)]
  {
    PresentPrefix(a, o, order, |order| - 1);
    assert order[|order| - 1] in order;
  }

  lemma ParentIs(o: Orient, n: nat)
    requires n in o
    ensures ParentRef(o[n]) == if o[n].Hung? then Some(o[n].peer) else None
  {
  }

  lemma TopFirst(o: Orient, root: nat, queue: seq<nat>, pos: nat)
    requires Leveled(o) && Walk(o, root, queue, pos) && pos < |queue|
    ensures queue[pos] in o && Under(o, root, queue[pos])
    ensures pos > 0 ==> o[queue[pos]].Hung?
    ensures pos == 0 ==> queue[pos] == root
  {
    assert queue[pos] in queue;
  }
}
