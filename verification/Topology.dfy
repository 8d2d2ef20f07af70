/** The card's view of the bus: building the node tree, walking it and updating it in place. */
module Topology {
  import opened Basics
  import opened SelfIdPacket
  import opened BusTree
  import opened HopCount
  import opened NodeStore
  import opened BuildTree
  import opened Orientation
  import opened TreeWalk
  import opened TreeUpdate
  import opened TreeMerge
  import opened TreeResult
  import opened NodeSpeeds
  import opened BusOrientation
  import opened BusView
  import opened BusEvents

  class FwCard {
    var nodes: seq<Node>            // every node ever created; node pointers are indices
    var color: nat
    var nodeId: nat
    var generation: nat
    var localNode: Option<nat>
    var rootNode: Option<nat>
    var irmNode: Option<nat>
    var gapCount: nat
    var betaRepeaters: bool
    var bmRetries: nat
    var events: seq<(nat, Event)>   // what was handed to fw_node_event, oldest first
    ghost var orient: Orient        // the current tree as seen from the local node
    ghost var treeColor: nat        // colour of all its nodes

    /** The local node, if any, sits in a tree whose nodes carry one colour and the right speeds. */
    ghost predicate Valid()
      reads this
    {
      color < 256 && (localNode.Some? ==> TreeOk(nodes, orient, localNode.value, treeColor))
    }

    /** A card before its first bus reset. */
    constructor ()
      ensures Valid() && localNode == None && nodes == [] && events == []
    {
      nodes, events, color, nodeId, generation := [], [], 0, 0, 0;
      localNode, rootNode, irmNode := None, None, None;
      gapCount, betaRepeaters, bmRetries := 0, false, 0;
      orient, treeColor := map[], 0;
    }

    /** Counts child ports and implemented ports of a self-ID sequence. */
    method CountPorts(s: seq<u32>) returns (children: nat, total: nat)
      requires 1 <= |s| <= 4
      ensures children == Children(Decode(s)) && total == Total(Decode(s))
    {
      var ports := Decode(s).ports;
      children, total := 0, 0;
      for p := 0 to Capacity(|s|)
        invariant children == Count(ports[..p], Child)
        invariant total == p - Count(ports[..p], Absent)
      {
        var status := PortStatus(s, p);
        CountStep(ports, p, Child);
        CountStep(ports, p, Absent);
        match status {
          case Child =>
            children := children + 1;
            total := total + 1;
          case Parent => total := total + 1;
          case NotConnected => total := total + 1;
          case Absent =>
        }
      }
      assert ports[..|ports|] == ports;
    }

    /** Links the newest node with the subtrees on top of the stack, whose roots are `roots`. */
    method LinkPorts(s: seq<u32>, total: nat, roots: seq<nat>,
                     ghost front: seq<Node>, ghost t: Tree, ghost hang: nat)
      returns (parents: nat)
      requires 1 <= |s| <= 4 && t.rec == Decode(s) && total == Total(t.rec)
      requires Linked(t.rec) <= |t.kids| && WiredF(t.kids) && HangingF(t.kids, hang) && roots == Roots(t.kids, |front|)
      requires nodes == front + FlatF(t.kids, |front|, color, |front| + SizeF(t.kids), 0) + [Fresh(t.rec, color)]
      modifies this`nodes
      ensures nodes == front + FlatF(t.kids, |front|, color, |front| + SizeF(t.kids), Linked(t.rec))
        + [Partial(t.rec, roots, color, total)]
      ensures parents == Parents(t.rec)
    {
      hide *;
      ghost var rec, vis := t.rec, Visible(t.rec);
      ghost var base, owner := |front|, |front| + SizeF(t.kids);
      var self := |nodes| - 1;
      var next := 0;
      parents := 0;
      VisibleCounts(rec);
      PartialStart(rec, roots, color);
      for p := 0 to total
        invariant next == Count(vis[..p], Child) && parents == Count(vis[..p], Parent)
        invariant nodes == front + FlatF(t.kids, base, color, owner, next) + [Partial(rec, roots, color, p)]
      {
        var status := PortStatus(s, p);
        VisibleStatus(s, rec, p);
        CountStep(vis, p, Child);
        CountStep(vis, p, Parent);
        PartialStep(rec, roots, color, p);
        ghost var n := Partial(rec, roots, color, p);
        assert nodes[self] == n;
        match status {
          case Parent =>
            parents := parents + 1;
            nodes := nodes[self := nodes[self].(color := p)];
          case Child =>
            var child := roots[next];
            LinkChild(nodes, front, t.kids, color, next, hang, n, Partial(rec, roots, color, p + 1));
            nodes := nodes[self := nodes[self].(ports := nodes[self].ports[p := Some(child)])];
            var c := nodes[child];
            nodes := nodes[child := c.(ports := c.ports[c.color := Some(self)], color := color)];
            next := next + 1;
          case NotConnected =>
          case Absent =>
        }
      }
    }

    /** Stores max_depth and max_hops of node `self` in their 4-bit fields. */
    method UpdateHopCount(self: nat)
      requires self < |nodes| && forall p | p in nodes[self].ports && p.Some? :: p.value < |nodes|
      modifies this`nodes
      ensures var n := old(nodes[self]); var h := Fold(PortBranches(old(nodes), n.ports, |n.ports|));
        nodes == old(nodes)[self := n.(maxDepth := DepthAbove(h) % 16, maxHops := HopsAbove(h) % 16)]
    {
      hide Fold, PortBranches;
      var n := nodes[self];
      var deep: int, second: int, maxChildHops: int := -1, -1, 0;
      ghost var a := nodes;
      NoBranches(a, n.ports);
      for i := 0 to |n.ports|
        invariant nodes == a && Hop(deep, second, maxChildHops) == Fold(PortBranches(a, n.ports, i))
      {
        PortBranchesStep(a, n.ports, i);
        if n.ports[i].Some? {
          var c := nodes[n.ports[i].value];
          FoldStep(PortBranches(a, n.ports, i), Branch(c.maxDepth, c.maxHops));
          if c.maxHops > maxChildHops {
            maxChildHops := c.maxHops;
          }
          if c.maxDepth > deep {
            deep, second := c.maxDepth, deep;
          } else if c.maxDepth > second {
            second := c.maxDepth;
          }
        }
      }
      nodes := nodes[self := n.(maxDepth := (deep + 1) % 16, maxHops := Max(maxChildHops, deep + second + 2) % 16)];
    }

    /** One round of the loop: creates the node reported by `s`, links it with the subtrees
        on top of the stack and replaces them by it. */
    method AddNode(s: seq<u32>, last: bool, phyId: nat, stack: seq<nat>, ghost before: seq<Node>, ghost forest: seq<Tree>)
      returns (ok: bool, stack': seq<nat>, parents: nat, children: nat)
      requires 1 <= |s| <= 4
      requires HangingF(forest, 0) && WiredF(forest) && phyId == SizeF(forest)
      requires nodes == before + FlatF(forest, |before|, color, 0, 0) && stack == Roots(forest, |before|)
      modifies this`nodes
      ensures |before| <= |nodes| && nodes[..|before|] == before
      ensures ok == Shift(forest, Decode(s), phyId, last).Some?
      ensures ok ==> var f := Shift(forest, Decode(s), phyId, last).value;
        && WiredF(f) && SizeF(f) == phyId + 1
        && nodes == before + FlatF(f, |before|, color, 0, 0) && stack' == Roots(f, |before|)
        && |nodes| == |before| + phyId + 1
        && parents == Parents(Decode(s)) && children == Children(Decode(s))
    {
      hide *;
      ok, stack', parents := false, stack, 0;
      ghost var rec, base := Decode(s), |before|;
      ShiftIs(forest, rec, phyId, last);
      DecodedFields(s);
      var total;
      children, total := CountPorts(s);
      if phyId != PhyId(s[0]) || children > |stack| {
        return;
      }
      var roots := stack[|stack| - children..];
      ghost var low, kids := forest[..|forest| - children], forest[|forest| - children..];
      ghost var t, owner := Tree(rec, kids), base + SizeF(forest);
      SplitForest(forest, children, base, color, owner);
      NewTreeWired(forest, rec);
      FreshIs(s, total, color);
      ghost var front := before + FlatF(low, base, color, 0, 0);
      nodes := nodes + [Node(LOCAL_BUS + PhyId(s[0]), color, LinkActive(s[0]), SpeedCode(s[0]), InitiatedReset(s[0]),
                             0, false, 0, 0, seq(total, _ => None))];
      assert nodes == front + FlatF(kids, |front|, color, owner, 0) + [Fresh(rec, color)];
      parents := LinkPorts(s, total, roots, front, t, SizeF(low));
      if parents != (if last then 0 else 1) {
        return;
      }
      NewNodeBranches(nodes, front, t, color);
      PartialEnd(t, |front|, color);
      UpdateHopCount(|nodes| - 1);
      ok := true;
      stack' := stack[..|stack| - children] + [|nodes| - 1];
      JoinForest(low, t, base, color);
    }

    /** Builds the node tree from the self-ID quadlets of one bus reset.  Returns the local
        node, or None if the quadlets are inconsistent (then only unreachable nodes were added). */
    method BuildTree(sid: seq<u32>) returns (local: Option<nat>)
      requires sid != []
      modifies this`nodes, this`rootNode, this`irmNode, this`gapCount, this`betaRepeaters
      ensures |old(nodes)| <= |nodes| && nodes[..|old(nodes)|] == old(nodes)
      ensures Outcome(sid, 0, []).None? ==>
        local == None && rootNode == old(rootNode) && irmNode == old(irmNode)
        && gapCount == old(gapCount) && betaRepeaters == old(betaRepeaters)
      ensures Outcome(sid, 0, []).Some? ==>
        var rs := Records(sid).value;
        && Built(old(nodes), nodes, color, Outcome(sid, 0, []).value)
        && |nodes| == |old(nodes)| + |rs|
        && rootNode == Some(|nodes| - 1) && irmNode == Shifted(LastContender(rs), |old(nodes)|)
        && gapCount == GapOf(rs, GapCount(sid[0])) && betaRepeaters == BetaRepeaters(rs)
        && local == (if nodeId % 64 < |rs| then Some(|old(nodes)| + nodeId % 64) else None)
    {
      hide *;
      var enumerator := new Enumerator(sid);
      var stack, phyId, root, irm, gap, beta := [], 0, rootNode, None, GapCount(sid[0]), false;
      ghost var before, forest, done := nodes, [], [];
      local := None;
      StartFacts(before, color, sid);
      while |enumerator.rest| > 0
        invariant Outcome(sid, 0, []) == Outcome(enumerator.rest, phyId, forest)
        invariant Records(sid) == Prepend(done, Records(enumerator.rest))
        invariant |done| == phyId == SizeF(forest) && WiredF(forest)
        invariant enumerator.rest != [] ==> HangingF(forest, 0)
        invariant nodes == before + FlatF(forest, |before|, color, 0, 0) && stack == Roots(forest, |before|)
        invariant phyId > 0 ==> root == Some(|nodes| - 1)
        invariant enumerator.rest == [] ==> phyId > 0
        invariant irm == Shifted(LastContender(done), |before|)
        invariant gap == GapOf(done, GapCount(sid[0])) && beta == BetaRepeaters(done)
        invariant local == if nodeId % 64 < phyId then Some(|before| + nodeId % 64) else None
        invariant fresh(enumerator) && unchanged(this`rootNode, this`irmNode, this`gapCount, this`betaRepeaters)
        decreases |enumerator.rest|
      {
        ghost var q := enumerator.rest;
        var next := enumerator.Next();
        if !next.Quadlets? {
          NoSequence(q, phyId, forest);
          return None;
        }
        var s := next.s;
        SequenceBounds(q, |s|);
        assert q[..|s|] == s && q[|s|..] == enumerator.rest;
        OutcomeStep(q, |s|, phyId, forest);
        RecordsStep(q, |s|);
        var ok, stack', parents, children := AddNode(s, |enumerator.rest| == 0, phyId, stack, before, forest);
        if !ok {
          return None;
        }
        ghost var rec := Decode(s);
        DecodedFields(s);
        ShiftHangs(forest, rec, phyId, |enumerator.rest| == 0);
        LastContenderStep(done, rec, |before|);
        GapStep(done, rec, GapCount(sid[0]));
        BetaStep(done, rec);
        RepeaterIs(rec);
        PrependStep(done, rec, Records(enumerator.rest));
        forest := Shift(forest, rec, phyId, |enumerator.rest| == 0).value;
        done := done + [rec];
        stack := stack';
        root := Some(|nodes| - 1);
        if phyId == nodeId % 64 {
          local := Some(|nodes| - 1);
        }
        if Contender(s[0]) {
          irm := Some(|nodes| - 1);
        }
        if SpeedCode(s[0]) == SCODE_BETA && parents + children > 1 {
          beta := true;
        }
        if GapCount(s[0]) != gap {
          gap := 0;
        }
        phyId := phyId + 1;
      }
      EndFacts(phyId, forest, done, before, nodes, color);
      rootNode, irmNode, gapCount, betaRepeaters := root, irm, gap, beta;
    }

    /** Calls `cb` for every node of the subtree of `root`, parents before children. */
    method ForEachNode(root: nat, cb: Callback, ghost o: Orient) returns (ghost order: seq<nat>)
      requires Leveled(o) && SubOk(nodes, o, root) && root in o && Unvisited(nodes, o, root, color)
      modifies this`nodes, this`events, this`bmRetries
      ensures Walk(o, root, order, |order|)
      ensures forall i :: i in order <==> i in o && Under(o, root, i)
      ensures Present(old(nodes), o, order)
      ensures nodes == VisitAll(old(nodes), o, order, color, cb)
      ensures events == old(events) + Events(order, cb)
      ensures bmRetries == 0
    {
      hide *;
      ghost var a0 := nodes;
      var list := [root];
      var parent: Option<nat> := None;
      var pos := 0;
      WalkStart(nodes, o, root, color, cb);
      bmRetries := 0;
      while pos < |list|
        invariant Walk(o, root, list, pos) && pos <= |list|
        invariant Present(a0, o, list[..pos])
        invariant nodes == VisitAll(a0, o, list[..pos], color, cb)
        invariant events == old(events) + Events(list[..pos], cb)
        invariant pos == 0 ==> parent == None && list == [root]
        invariant bmRetries == 0
        decreases |o.Keys| - pos
      {
        QueueInStore(a0, o, root, list, pos);
        var node := list[pos];
        assert node in list;
        TopFirst(o, root, list, pos);
        ghost var a := nodes;
        nodes := nodes[node := nodes[node].(color := color)];
        StepColors(a0, a, o, root, list, pos, color, cb, nodes);
        StepPorts(nodes, o, root, list, pos, color, parent);
        var ports := nodes[node].ports;
        ghost var list0 := list;
        PortsValid(nodes, o, root, node);
        list, parent := EnqueueNeighbours(ports, list, parent);
        ParentIs(o, node);
        StepVisit(a0, o, list0, Pick(nodes, ports, |ports|, color), pos, color, cb);
        nodes := nodes[node := Reported(nodes[node], NodeAt(nodes, parent), cb)];
        events := events + [(node, EventOf(cb))];
        bmRetries := 0;
        pos := pos + 1;
        QueueInStore(a0, o, root, list, pos);
      }
      assert list[..pos] == list;
      WalkEnd(o, root, list);
      order := list;
    }

    /** The port loop: appends uncoloured neighbours, remembers a coloured one as parent. */
    method EnqueueNeighbours(ports: seq<Option<nat>>, list: seq<nat>, parent: Option<nat>)
      returns (list': seq<nat>, parent': Option<nat>)
      requires forall p | p in ports && p.Some? :: p.value < |nodes|
      ensures list' == list + Pick(nodes, ports, |ports|, color)
      ensures parent' == Seen(nodes, ports, |ports|, color, parent)
    {
      list', parent' := list, parent;
      for i := 0 to |ports|
        invariant list' == list + Pick(nodes, ports, i, color)
        invariant parent' == Seen(nodes, ports, i, color, parent)
      {
        var child := ports[i];
        if child.Some? {
          assert child in ports;
          if nodes[child.value].color == color {
            parent' := child;
          } else {
            list' := list' + [child.value];
          }
        }
      }
    }

    /** Attaches the subtree behind `port` of new node `node1` to old node `node0`. */
    method MoveTree(node0: nat, node1: nat, port: nat, ghost up: nat)
      requires node0 < |nodes| && node1 < |nodes| && port < |nodes[node0].ports| && port < |nodes[node1].ports|
      requires nodes[node1].ports[port].Some? && nodes[node1].ports[port].value < |nodes|
      requires nodes[node1].ports[port].value != node0
      requires up < |nodes[nodes[node1].ports[port].value].ports|
      requires var y := nodes[node1].ports[port].value;
        forall p :: 0 <= p < |nodes[y].ports| ==> (nodes[y].ports[p] == Some(node1) <==> p == up)
      modifies this`nodes
      ensures nodes == Moved(old(nodes), node0, port, old(nodes[node1].ports[port].value), up)
    {
      var tree := nodes[node1].ports[port].value;
      nodes := nodes[node0 := nodes[node0].(ports := nodes[node0].ports[port := Some(tree)])];
      var i := 0;
      while i < |nodes[tree].ports|
        invariant i <= up && |nodes[tree].ports| == |old(nodes)[tree].ports|
        invariant nodes == old(nodes)[node0 := old(nodes)[node0].(ports := old(nodes)[node0].ports[port := Some(tree)])]
      {
        if nodes[tree].ports[i] == Some(node1) {
          nodes := nodes[tree := nodes[tree].(ports := nodes[tree].ports[i := Some(node0)])];
          return;
        }
        i := i + 1;
      }
    }

    /** Only the old tree is connected at this port: the nodes behind it were unplugged. */
    method DropSubtree(node0: nat, i: nat, x: nat,
                       ghost d: Diff, ghost s: Progress, ghost e0: seq<(nat, Event)>, ghost ev: seq<(nat, Event)>)
      returns (ghost s': Progress, ghost ev': seq<(nat, Event)>)
      requires ValidDiff(d) && Busy(d, s) && StoreOk(d, s, nodes) && color == d.color
      requires node0 == s.cur && node0 in s.w && node0 < |d.a| && i == s.port < |d.a[node0].ports|
      requires s.w[node0] < |d.a| && i < |d.a[s.w[node0]].ports|
      requires d.a[node0].ports[i] == Some(x) && d.a[s.w[node0]].ports[i] == None
      requires node0 < |nodes| && i < |nodes[node0].ports|
      requires EventsOk(d, s, ev) && events == e0 + ev && BornPaced(d, s, nodes)
      modifies this`nodes, this`events, this`bmRetries
      ensures Busy(d, s') && StoreOk(d, s', nodes) && EventsOk(d, s', ev') && events == e0 + ev'
      ensures BornPaced(d, s', nodes)
      ensures s'.(port := s.port, lost := s.lost) == s && s'.port == s.port + 1
    {
      hide *;
      LosePort(d, s, x);
      LostWalkReady(d, s, nodes, x);
      FreshOldIs(d, s, node0, i, x);
      DiffLeveled(d);
      s' := s.(port := i + 1, lost := s.lost + Below(d.o0, x));
      ghost var a := nodes;
      ghost var order := ForEachNode(x, ReportLost, d.o0);
      WalkIsDistinct(d.o0, x, order);
      VisitAllFacts(a, d.o0, order, color, ReportLost, node0);
      LoseStore(d, s, s', a, nodes, order, x);
      DroppedPaced(d, s, s', a, order, node0, nodes[node0].ports[i := None]);
      nodes := nodes[node0 := nodes[node0].(ports := nodes[node0].ports[i := None])];
      LostEvents(d, s, s', ev, order, x);
      ev' := ev + Events(order, ReportLost);
    }

    /** Only the new tree is connected at this port: the nodes behind it move into the old tree. */
    method AdoptSubtree(node0: nat, node1: nat, i: nat, y: nat,
                        ghost d: Diff, ghost s: Progress, ghost e0: seq<(nat, Event)>, ghost ev: seq<(nat, Event)>)
      returns (ghost s': Progress, ghost ev': seq<(nat, Event)>)
      requires ValidDiff(d) && Busy(d, s) && StoreOk(d, s, nodes) && color == d.color
      requires node0 == s.cur && node0 in s.w && s.w[node0] == node1 && node0 < |d.a| && i == s.port < |d.a[node0].ports|
      requires node1 < |d.a| && i < |d.a[node1].ports|
      requires d.a[node0].ports[i] == None && d.a[node1].ports[i] == Some(y)
      requires node1 < |nodes| && i < |nodes[node1].ports| && nodes[node1].ports[i] == Some(y)
      requires EventsOk(d, s, ev) && events == e0 + ev && BornPaced(d, s, nodes)
      modifies this`nodes, this`events, this`bmRetries
      ensures Busy(d, s') && StoreOk(d, s', nodes) && EventsOk(d, s', ev') && events == e0 + ev'
      ensures BornPaced(d, s', nodes)
      ensures s'.(port := s.port, born := s.born) == s && s'.port == s.port + 1
    {
      hide *;
      AdoptReady(d, s, nodes, y);
      s' := s.(port := i + 1, born := s.born + Below(d.o1, y));
      ghost var a := nodes;
      MoveTree(node0, node1, i, d.o1[y].port);
      ghost var b, g := nodes, Graft(d.o1, y, node0);
      ghost var order := ForEachNode(y, ReportFound, g);
      AdoptDone(d, s, s', a, b, g, order, y, ev);
      AdoptedPaced(d, s, s', a, b, g, order, y);
      ev' := ev + Events(order, ReportFound);
    }

    /** Compares one port of a matched pair. */
    method ComparePort(node0: nat, node1: nat, i: nat, list0: seq<nat>, list1: seq<nat>,
                       ghost d: Diff, ghost s: Progress, ghost e0: seq<(nat, Event)>, ghost ev: seq<(nat, Event)>)
      returns (list0': seq<nat>, list1': seq<nat>, ghost s': Progress, ghost ev': seq<(nat, Event)>)
      requires ValidDiff(d) && Compatible(d) && Busy(d, s) && StoreOk(d, s, nodes) && color == d.color
      requires node0 == s.cur && node0 in s.w && s.w[node0] == node1 && node0 < |d.a| && i == s.port < |d.a[node0].ports|
      requires node0 < |nodes| && node1 < |nodes| && i < |nodes[node0].ports| && i < |nodes[node1].ports|
      requires Queues(s, list0, list1) && EventsOk(d, s, ev) && events == e0 + ev && BornPaced(d, s, nodes)
      modifies this`nodes, this`events, this`bmRetries
      ensures Busy(d, s') && StoreOk(d, s', nodes) && Queues(s', list0', list1')
      ensures EventsOk(d, s', ev') && events == e0 + ev' && BornPaced(d, s', nodes)
      ensures s'.cur == s.cur && s'.port == s.port + 1 && s'.done == s.done && s'.marked == s.marked
      ensures node0 in s'.w && s'.w[node0] == node1 && list0 <= list0'
      ensures forall r :: Tracked(s', r) == Tracked(s, r)
    {
      hide *;
      list0', list1', s', ev' := list0, list1, s.(port := i + 1), ev;
      BusyFacts(d, s);
      SetFacts(d, s);
      PortView(d, s, nodes);
      var x, y := nodes[node0].ports[i], nodes[node1].ports[i];
      if x.Some? && y.Some? {
        if nodes[x.value].color == color {
          SkipPort(d, s);
          UnchangedStore(d, s, s', nodes);
          StillPaced(d, s, s', nodes);
          QueuesSame(s, s', list0, list1);
          SameEvents(d, s, s', ev);
        } else {
          // The port did not change: queue the connected nodes for further investigation.
          KeepPort(d, s, x.value, y.value);
          s' := s.(port := i + 1, w := s.w[x.value := y.value], v := s.v[y.value := x.value]);
          UnchangedStore(d, s, s', nodes);
          StillPaced(d, s, s', nodes);
          list0', list1' := list0 + [x.value], list1 + [y.value];
          QueuesGrow(s, s', list0, list1, x.value, y.value);
          SameEvents(d, s, s', ev);
        }
      } else if x.Some? {
        s', ev' := DropSubtree(node0, i, x.value, d, s, e0, ev);
        QueuesSame(s, s', list0, list1);
      } else if y.Some? {
        s', ev' := AdoptSubtree(node0, node1, i, y.value, d, s, e0, ev);
        QueuesSame(s, s', list0, list1);
      } else {
        SkipPort(d, s);
        UnchangedStore(d, s, s', nodes);
        StillPaced(d, s, s', nodes);
        QueuesSame(s, s', list0, list1);
        SameEvents(d, s, s', ev);
      }
      forall r ensures Tracked(s', r) == Tracked(s, r) {
        TrackSame(s, s', r);
      }
    }

    /** Refreshes the old node of a matched pair and reports it. */
    method MarkPair(node0: nat, node1: nat,
                    ghost d: Diff, ghost s: Progress, ghost e0: seq<(nat, Event)>, ghost ev: seq<(nat, Event)>,
                    ghost root0: Option<nat>, ghost irm0: Option<nat>)
      returns (ghost s': Progress, ghost ev': seq<(nat, Event)>)
      requires rootNode == Tracked(s, root0) && irmNode == Tracked(s, irm0)
      requires (root0.Some? ==> root0.value in d.o1) && (irm0.Some? ==> irm0.value in d.o1)
      requires ValidDiff(d) && ProgressOk(d, s) && StoreOk(d, s, nodes) && color == d.color
      requires s.port == 0 && s.marked == s.done && node0 in s.w && node0 !in s.done && s.w[node0] == node1
      requires EventsOk(d, s, ev) && events == e0 + ev && BornPaced(d, s, nodes)
      modifies this`nodes, this`events, this`rootNode, this`irmNode
      ensures s' == s.(cur := node0, marked := s.marked + {node0})
      ensures Busy(d, s') && StoreOk(d, s', nodes)
      ensures EventsOk(d, s', ev') && events == e0 + ev' && BornPaced(d, s', nodes)
      ensures rootNode == Tracked(s', root0) && irmNode == Tracked(s', irm0)
    {
      hide *;
      PairFacts(d, s, node0);
      UnmarkedIs(d, s, nodes, node0);
      assert |nodes[node0].ports| == |nodes[node1].ports|;   // the WARN_ON does not fire
      ghost var n0, n1 := nodes[node0], nodes[node1];
      var event;
      if nodes[node0].linkOn && !nodes[node1].linkOn {
        event := LinkTurnedOff;
      } else if !nodes[node0].linkOn && nodes[node1].linkOn {
        event := LinkTurnedOn;
      } else if nodes[node1].initiatedReset && nodes[node1].linkOn {
        event := ResetInitiated;
      } else {
        event := Updated;
      }
      MatchEventIs(n0, n1, event);
      RefreshedIs(n0, n1, color);
      s' := s.(cur := node0, marked := s.marked + {node0});
      MarkStore(d, s, nodes, node0);
      MarkedPaced(d, s, s', nodes, node0);
      nodes := nodes[node0 := nodes[node0].(id := nodes[node1].id, color := color, linkOn := nodes[node1].linkOn,
                                            initiatedReset := nodes[node1].initiatedReset, maxHops := nodes[node1].maxHops)];
      nodes := nodes[node1 := nodes[node1].(color := color)];
      StartNode(d, s, node0);
      events := events + [(node0, event)];
      MarkEvents(d, s, s', ev, node0, event);
      ev' := ev + [(node0, event)];
      TrackMark(d, s, s', root0, node0);
      TrackMark(d, s, s', irm0, node0);
      if rootNode == Some(node1) {
        rootNode := Some(node0);
      }
      if irmNode == Some(node1) {
        irmNode := Some(node0);
      }
    }

    /** Compares a matched pair: refreshes the old node, reports it, handles its ports. */
    method CompareNode(node0: nat, node1: nat, list0: seq<nat>, list1: seq<nat>,
                       ghost d: Diff, ghost s: Progress, ghost e0: seq<(nat, Event)>, ghost ev: seq<(nat, Event)>,
                       ghost root0: Option<nat>, ghost irm0: Option<nat>)
      returns (list0': seq<nat>, list1': seq<nat>, ghost s': Progress, ghost ev': seq<(nat, Event)>)
      requires rootNode == Tracked(s, root0) && irmNode == Tracked(s, irm0)
      requires (root0.Some? ==> root0.value in d.o1) && (irm0.Some? ==> irm0.value in d.o1)
      requires ValidDiff(d) && Compatible(d) && ProgressOk(d, s) && StoreOk(d, s, nodes) && color == d.color
      requires s.port == 0 && s.marked == s.done && node0 in s.w && node0 !in s.done && s.w[node0] == node1
      requires Queues(s, list0, list1) && EventsOk(d, s, ev) && events == e0 + ev && BornPaced(d, s, nodes)
      modifies this`nodes, this`events, this`bmRetries, this`rootNode, this`irmNode
      ensures ProgressOk(d, s') && StoreOk(d, s', nodes) && Queues(s', list0', list1')
      ensures EventsOk(d, s', ev') && events == e0 + ev' && BornPaced(d, s', nodes)
      ensures s'.port == 0 && s'.marked == s'.done == s.done + {node0} && list0 <= list0'
      ensures rootNode == Tracked(s', root0) && irmNode == Tracked(s', irm0)
    {
      hide *;
      s', ev' := MarkPair(node0, node1, d, s, e0, ev, root0, irm0);
      QueuesSame(s, s', list0, list1);
      list0', list1' := list0, list1;
      ghost var s1 := s';
      var i := 0;
      PortCount(d, s', nodes);
      while i < |nodes[node0].ports|
        invariant Busy(d, s') && StoreOk(d, s', nodes) && Queues(s', list0', list1')
        invariant EventsOk(d, s', ev') && events == e0 + ev' && BornPaced(d, s', nodes)
        invariant s'.cur == node0 && s'.port == i && s'.done == s1.done && s'.marked == s1.marked
        invariant node0 in s'.w && s'.w[node0] == node1 && list0 <= list0'
        invariant node0 < |nodes| && node1 < |nodes| && i <= |nodes[node0].ports| == |nodes[node1].ports|
        invariant node0 < |d.a| && |nodes[node0].ports| == |d.a[node0].ports|
        invariant forall r :: Tracked(s', r) == Tracked(s1, r)
        invariant rootNode == Tracked(s1, root0) && irmNode == Tracked(s1, irm0)
        decreases |d.a[node0].ports| - i
      {
        list0', list1', s', ev' := ComparePort(node0, node1, i, list0', list1', d, s', e0, ev');
        PortCount(d, s', nodes);
        i := i + 1;
      }
      EndNode(d, s');
      EndStore(d, s', nodes);
      BusyFacts(d, s');
      ghost var s2 := s'.(done := s'.done + {node0}, port := 0);
      QueuesSame(s', s2, list0', list1');
      SameEvents(d, s', s2, ev');
      StillPaced(d, s', s2, nodes);
      TrackSame(s', s2, root0);
      TrackSame(s', s2, irm0);
      s' := s2;
    }

    /** Compares the old tree with the new one, from the local node outwards, and updates
        the old one in place. */
    method UpdateTree(root: nat, ghost d: Diff) returns (ghost s: Progress, ghost ev: seq<(nat, Event)>)
      requires ValidDiff(d) && Compatible(d) && d.a == nodes && d.color == color
      requires localNode == Some(d.l0) && root == d.l1
      requires (rootNode.Some? ==> rootNode.value in d.o1) && (irmNode.Some? ==> irmNode.value in d.o1)
      modifies this`nodes, this`events, this`bmRetries, this`rootNode, this`irmNode
      ensures Transplanted(d, s, nodes) && Finished(d, s) && ProgressOk(d, s) && StoreOk(d, s, nodes)
      ensures EventsOk(d, s, ev) && events == old(events) + ev && BornPaced(d, s, nodes)
      ensures rootNode == SurvivorRef(s, old(rootNode)) && irmNode == SurvivorRef(s, old(irmNode))
    {
      hide *;
      s, ev := StartProgress(d), [];
      StartOk(d);
      StartIs(d);
      NobodyBorn(d, s, nodes);
      ghost var e0 := events;
      var list0, list1 := [localNode.value], [root];
      var pos := 0;
      while pos < |list0|
        invariant ProgressOk(d, s) && StoreOk(d, s, nodes) && Queues(s, list0, list1) && |list0| == |list1|
        invariant EventsOk(d, s, ev) && events == e0 + ev && BornPaced(d, s, nodes)
        invariant pos <= |list0| && s.port == 0 && s.marked == s.done == Firsts(list0, pos)
        invariant rootNode == Tracked(s, old(rootNode)) && irmNode == Tracked(s, old(irmNode))
        decreases |d.o0.Keys| - pos
      {
        QueueBound(d, s, list0, list1);
        HeadIsNew(s, list0, list1, pos);
        ghost var before := list0;
        list0, list1, s, ev := CompareNode(list0[pos], list1[pos], list0, list1, d, s, e0, ev, old(rootNode), old(irmNode));
        FirstsStep(before, list0, pos);
        QueueLengths(s, list0, list1);
        pos := pos + 1;
      }
      FirstsAll(list0, pos);
      AllHandled(d, s, list0, list1);
      UpdateDone(d, s, nodes);
      TrackEnd(d, s, old(rootNode));
      TrackEnd(d, s, old(irmNode));
    }

    /** Reports all nodes of the current tree as lost. */
    method DestroyNodes() returns (ghost ev: seq<(nat, Event)>)
      requires Valid() && (localNode.Some? ==> treeColor != (color + 1) % 256)
      modifies this`color, this`nodes, this`events, this`bmRetries, this`localNode
      ensures Valid() && localNode == None && color == (old(color) + 1) % 256
      ensures |nodes| == |old(nodes)| && events == old(events) + ev
      ensures old(localNode).Some? ==> (forall i | i in orient :: i < |nodes|)
      ensures ResetEvents(old(nodes), TreeNodes(old(localNode), orient), [], [], ev)
    {
      hide *;
      ValidIs();
      TreeNodesAre(localNode, orient);
      color := (color + 1) % 256;
      ev := [];
      if localNode.Some? {
        TreeOkIs(nodes, orient, localNode.value, treeColor);
        InStore(nodes, orient, localNode.value);
        OrientedSub(nodes, orient, localNode.value, localNode.value);
        TreeUnvisited(nodes, orient, localNode.value, treeColor, color);
        ghost var order := ForEachNode(localNode.value, ReportLost, orient);
        WholeTreeWalked(old(nodes), orient, localNode.value, order);
        WalkIsDistinct(orient, localNode.value, order);
        VisitAllLength(old(nodes), orient, order, color, ReportLost);
        LostAll(old(nodes), orient.Keys, order);
        ev := Events(order, ReportLost);
      }
      localNode := None;
      NoEvents(old(nodes));
      ValidIntro();
    }

    /** The first tree after start-up or after lost generations: all its nodes are new. */
    method AdoptFirstTree(local: nat, ghost before: seq<Node>, ghost built: nat, ghost t: Tree, ghost l: nat)
      returns (ghost seat: seq<nat>, ghost ev: seq<(nat, Event)>)
      requires ProperBus(t) && WiredAll(t) && l < Size(t) && nodes == before + Flat(t, |before|, built, None)
      requires local == |before| + l && built != color < 256
      modifies this`nodes, this`events, this`bmRetries, this`localNode, this`orient, this`treeColor
      ensures Valid() && localNode == Some(local) && treeColor == color
      ensures seat == FreshSeats(Size(t), |before|) && Depicts(nodes, seat, t, |before|)
      ensures events == old(events) + ev && ResetEvents(before, {}, seat, Flat(t, |before|, built, None), ev)
    {
      hide *;
      FreshTree(before, nodes, built, t, l);
      localNode := Some(local);
      orient := FreshOrient(t, |before|, l);
      ghost var a := nodes;
      InStore(a, orient, local);
      OrientedSub(a, orient, local, local);
      TreeUnvisited(a, orient, local, built, color);
      ghost var order := ForEachNode(local, ReportFound, orient);
      FoundPaced(a, orient, local, order, color);
      FoundDepicts(before, a, built, t, l, orient, order, color);
      treeColor := color;
      TreeOkIntro(nodes, orient, local, color);
      ValidIntro();
      seat := FreshSeats(Size(t), |before|);
      WholeTreeWalked(a, orient, local, order);
      WalkIsDistinct(orient, local, order);
      FoundAll(before, |before|, Size(t), Flat(t, |before|, built, None), order);
      ev := Events(order, ReportFound);
    }

    /** A later tree: the old one is compared with it and updated. */
    method AdoptNextTree(local: nat, ghost before: seq<Node>, ghost built: nat, ghost t: Tree, ghost l: nat)
      returns (ghost seat: seq<nat>, ghost s: Progress, ghost ev: seq<(nat, Event)>)
      requires ProperBus(t) && WiredAll(t) && l < Size(t) && nodes == before + Flat(t, |before|, built, None)
      requires local == |before| + l && built < 256 && color == (built + 1) % 256 && treeColor != color
      requires localNode.Some? && TreeOk(before, orient, localNode.value, treeColor)
      requires Compatible(ResetDiff(before, built, orient, localNode.value, t, l))
      requires InTree(rootNode, |before|, Size(t)) && InTree(irmNode, |before|, Size(t))
      modifies this`nodes, this`events, this`bmRetries, this`rootNode, this`irmNode, this`orient, this`treeColor
      ensures Valid() && treeColor == color
      ensures seat == SurvivorSeats(s, Size(t), |before|) && Depicts(nodes, seat, t, |before|)
      ensures localNode == Some(Survivor(s, local))
      ensures rootNode == SurvivorRef(s, old(rootNode)) && irmNode == SurvivorRef(s, old(irmNode))
      ensures events == old(events) + ev
      ensures ResetEvents(before, old(orient).Keys, seat, Flat(t, |before|, built, None), ev)
    {
      hide *;
      TreeOkIs(before, orient, localNode.value, treeColor);
      ghost var d := ResetDiff(before, built, orient, localNode.value, t, l);
      ResetDiffIs(before, built, orient, localNode.value, t, l);
      ResetDiffValid(before, built, orient, localNode.value, t, l, treeColor);
      FreshTree(before, nodes, built, t, l);
      InTreeIs(rootNode, |before|, Size(t));
      InTreeIs(irmNode, |before|, Size(t));
      s, ev := UpdateTree(local, d);
      UpdateDepicts(before, built, orient, localNode.value, t, l, s, nodes);
      UpdateEvents(before, built, orient, localNode.value, t, l, s, nodes, ev);
      PrefixPaced(before, d.a, orient);
      UpdateValid(d, s, nodes);
      LocalSurvives(d, s);
      orient := SurvivorOrient(d, s);
      treeColor := color;
      TreeOkIntro(nodes, orient, localNode.value, color);
      ValidIntro();
      seat := SurvivorSeats(s, Size(t), |before|);
    }

    /** The new tree becomes the card's tree, and its local, root and IRM node are known. */
    method AdoptTree(local: nat, ghost before: seq<Node>, ghost built: nat, ghost t: Tree, ghost l: nat, ghost rs: seq<SelfId>)
      returns (ghost seat: seq<nat>, ghost ev: seq<(nat, Event)>)
      requires ProperBus(t) && WiredAll(t) && l < Size(t) == |rs| && nodes == before + Flat(t, |before|, built, None)
      requires local == |before| + l && built < 256 && color == (built + 1) % 256 && (localNode.Some? ==> treeColor != color)
      requires localNode.Some? ==> TreeOk(before, orient, localNode.value, treeColor)
      requires localNode.Some? ==> Compatible(ResetDiff(before, built, orient, localNode.value, t, l))
      requires rootNode == Some(|before| + |rs| - 1) && irmNode == Shifted(LastContender(rs), |before|)
      modifies this`nodes, this`events, this`bmRetries, this`localNode, this`rootNode, this`irmNode, this`orient, this`treeColor
      ensures Valid() && treeColor == color && Depicts(nodes, seat, t, |before|) && |seat| == Size(t)
      ensures localNode == Some(seat[l]) && rootNode == Some(seat[|seat| - 1]) && irmNode == SeatOf(seat, LastContender(rs))
      ensures seat[|seat| - 1] < |nodes| && nodes[seat[|seat| - 1]].maxHops == Hops4(t)
      ensures old(localNode).None? ==> seat == FreshSeats(Size(t), |before|)
      ensures events == old(events) + ev
      ensures ResetEvents(before, TreeNodes(old(localNode), old(orient)), seat, Flat(t, |before|, built, None), ev)
    {
      hide *;
      TreeNodesAre(localNode, orient);
      if localNode.None? {
        seat, ev := AdoptFirstTree(local, before, built, t, l);
        FreshSeatAt(Size(t), |before|, l);
        FreshRefs(rs, |before|);
      } else {
        RefsInTree(rs, |before|, rootNode, irmNode);
        ghost var s;
        seat, s, ev := AdoptNextTree(local, before, built, t, l);
        NextRefs(rs, |before|, s);
      }
      RootHops(nodes, seat, t, |before|);
    }

    /** After lost generations the old tree cannot be compared with a new one. */
    method LeaveGeneration(newNodeId: nat, newGeneration: nat) returns (ghost ev: seq<(nat, Event)>)
      requires Valid() && (localNode.Some? ==> treeColor != (color + 1) % 256)
      modifies this
      ensures Valid() && generation == newGeneration && nodeId == newNodeId && events == old(events) + ev
      ensures unchanged(this`orient, this`treeColor, this`rootNode, this`irmNode, this`gapCount, this`betaRepeaters)
      ensures localNode == (if IsNextGeneration(newGeneration, old(generation)) then old(localNode) else None)
      ensures IsNextGeneration(newGeneration, old(generation)) ==> nodes == old(nodes) && color == old(color) && ev == []
      ensures |nodes| == |old(nodes)| && (old(localNode).Some? ==> forall i | i in orient :: i < |nodes|)
      ensures ResetEvents(old(nodes), LostNodes(old(localNode), localNode, old(orient)), [], [], ev)
    {
      hide *;
      ValidIs();
      NoEvents(nodes);
      TreeNodesAre(localNode, orient);
      ev := [];
      if localNode.Some? {
        TreeInStore(nodes, orient, localNode.value, treeColor);
      }
      if newGeneration % 256 != (generation + 1) % 256 && localNode.Some? {
        ev := DestroyNodes();
        bmRetries := 0;
      }
      nodeId := newNodeId;
      generation := newGeneration;
      ValidIs();
      ValidIntro();
    }

    /** A bus reset with self-ID quadlets `sid`.  A report with the local PHY that is accepted has
        to be a whole bus; the hypothesis on matched nodes is about the old tree and the report.
        The report is adopted; or it is rejected and nothing but the old tree, if generations
        were lost, goes; or the local PHY is missing, and root and IRM node leave the tree that
        the card keeps. */
    method HandleBusReset(newNodeId: nat, newGeneration: nat, sid: seq<u32>)
      returns (ghost seat: seq<nat>, ghost base: nat, ghost ev: seq<(nat, Event)>)
      requires sid != [] && Valid() && (localNode.Some? ==> treeColor != (color + 1) % 256)
      requires LocalReported(sid, newNodeId) ==> WholeReport(sid)
      requires IsNextGeneration(newGeneration, generation) && localNode.Some? && LocalReported(sid, newNodeId) ==>
        CompatibleReport(nodes, color, orient, localNode.value, ReportedTree(sid), newNodeId % 64)
      modifies this
      ensures Valid() && generation == newGeneration && nodeId == newNodeId && events == old(events) + ev
      ensures LocalReported(sid, newNodeId) ==>
        var t := ReportedTree(sid);
        && WiredAll(t) && Depicts(nodes, seat, t, base) && |seat| == Size(t) > newNodeId % 64
        && localNode == Some(seat[newNodeId % 64]) && rootNode == Some(seat[|seat| - 1])
        && treeColor == color && irmNode == SeatOf(seat, LastContender(Records(sid).value))
        && ResetEvents(old(nodes), TreeNodes(old(localNode), old(orient)), seat, Flat(t, base, 0, None), ev)
      ensures !LocalReported(sid, newNodeId) ==>
        && unchanged(this`orient, this`treeColor)
        && localNode == (if IsNextGeneration(newGeneration, old(generation)) then old(localNode) else None)
        && ResetEvents(old(nodes), LostNodes(old(localNode), localNode, old(orient)), [], [], ev)
        && (IsNextGeneration(newGeneration, old(generation)) ==> |old(nodes)| <= |nodes| && nodes[..|old(nodes)|] == old(nodes))
      ensures Outcome(sid, 0, []).Some? ==>
        && rootNode.Some? && rootNode.value < |nodes| && nodes[rootNode.value].maxHops == Hops4(ReportedTree(sid))
        && gapCount == GapOf(Records(sid).value, GapCount(sid[0])) && betaRepeaters == BetaRepeaters(Records(sid).value)
      ensures Outcome(sid, 0, []).Some? && !LocalReported(sid, newNodeId) ==>
        && base == |old(nodes)| && |nodes| == base + |Records(sid).value|
        && rootNode == Some(|nodes| - 1) && irmNode == Shifted(LastContender(Records(sid).value), base)
      ensures Outcome(sid, 0, []).None? ==> unchanged(this`rootNode, this`irmNode, this`gapCount, this`betaRepeaters)
    {
      hide *;
      LocalReportedIs(sid, newNodeId);
      ghost var t, next := ReportedTree(sid), IsNextGeneration(newGeneration, generation);
      ghost var gone := LeaveGeneration(newNodeId, newGeneration);
      ev := gone;
      ValidIs();
      ghost var before, built, now := nodes, color, localNode;
      seat, base := [], |nodes|;
      var local := BuildTree(sid);
      color := (color + 1) % 256;
      if Outcome(sid, 0, []).Some? {
        LastTreeHops(sid, before, nodes, built);
      }
      if local.None? {
        TreeKept(before, nodes, orient, localNode, treeColor);
        ValidIntro();
        return;
      }
      ghost var l, rs := newNodeId % 64, Records(sid).value;
      WholeReportIs(sid);
      BuiltIs(before, nodes, built, t);
      if localNode.Some? {
        CompatibleIs(before, built, orient, localNode.value, t, l);
      }
      ghost var found;
      seat, found := AdoptTree(local.value, before, built, t, l, rs);
      ev := gone + found;
      AdoptedEvents(old(nodes), before, old(localNode), now, old(orient), seat, t, built, gone, found);
    }

    lemma ValidIs()
      ensures Valid() <==> color < 256 && (localNode.Some? ==> TreeOk(nodes, orient, localNode.value, treeColor))
      ensures forall a, b :: IsNextGeneration(a, b) <==> a % 256 == (b + 1) % 256
    {
    }

    lemma ValidIntro()
      requires color < 256 && (localNode.Some? ==> TreeOk(nodes, orient, localNode.value, treeColor))
      ensures Valid()
    {
    }
  }

  predicate IsNextGeneration(a: nat, b: nat) { a % 256 == (b + 1) % 256 }
}
