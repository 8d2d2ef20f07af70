/** Trees of nodes as seen from one of them.

    An orientation gives every node of a tree the port that leads towards a chosen top
    node.  `Oriented` says that the port arrays of the store really form a tree: every
    connection is recorded at both ends, and it is the upward connection of exactly one.
 */
module Orientation {
  import opened Basics
  import opened NodeStore

  /** `port` leads to `peer`, whose `slot` leads back; levels fall towards the top. */
  datatype Hang = Top | Hung(port: nat, peer: nat, slot: nat, level: nat)

  type Orient = map<nat, Hang>

  function Level(h: Hang): nat { if h.Top? then 0 else h.level }

  predicate IsUp(h: Hang, p: nat) { h.Hung? && h.port == p }

  ghost predicate UpOk(a: seq<Node>, o: Orient, i: nat)
    requires i in o && i < |a|
  {
    o[i].Hung? ==> var h := o[i];
      && h.port < |a[i].ports| && a[i].ports[h.port] == Some(h.peer)
      && h.peer in o && h.peer < |a| && Level(o[h.peer]) < h.level
      && h.slot < |a[h.peer].ports| && a[h.peer].ports[h.slot] == Some(i)
      && !IsUp(o[h.peer], h.slot)
  }

  ghost predicate DownOk(a: seq<Node>, o: Orient, i: nat, p: nat)
    requires i in o && i < |a| && p < |a[i].ports|
  {
    a[i].ports[p].Some? && !IsUp(o[i], p) ==>
      var k := a[i].ports[p].value; k in o && o[k].Hung? && o[k].peer == i && o[k].slot == p
  }

  ghost predicate NodeOk(a: seq<Node>, o: Orient, i: nat)
    requires i in o && i < |a|
  {
    UpOk(a, o, i) && forall p :: 0 <= p < |a[i].ports| ==> DownOk(a, o, i, p)
  }

  ghost predicate Oriented(a: seq<Node>, o: Orient, top: nat) {
    && top in o
    && (forall i | i in o :: i < |a| && NodeOk(a, o, i))
    && (forall i | i in o :: o[i].Top? <==> i == top)
  }

  /** Only the ports matter. */
  lemma OrientedByPorts(a: seq<Node>, b: seq<Node>, o: Orient, top: nat)
    requires Oriented(a, o, top)
    requires |a| <= |b| && forall i | i in o :: a[i].ports == b[i].ports
    ensures Oriented(b, o, top)
  {
    forall i | i in o ensures i < |b| && NodeOk(b, o, i) {
      assert NodeOk(a, o, i);
      assert UpOk(b, o, i);
      forall p | 0 <= p < |b[i].ports| ensures DownOk(b, o, i, p) {
        assert DownOk(a, o, i, p);
      }
    }
  }

  // ---- looking at the tree from another node -------------------------------

  function Lift(h: Hang): Hang { if h.Top? then h else h.(level := h.level + 1) }

  /** Moves the top from `r` to its neighbour `c`. */
  function Reroot(o: Orient, r: nat, c: nat): Orient
    requires r in o && c in o && o[c].Hung?
  {
    map i | i in o ::
      if i == c then Top else if i == r then Hung(o[c].slot, c, o[c].port, 1) else Lift(o[i])
  }

  lemma RerootOriented(a: seq<Node>, o: Orient, r: nat, c: nat)
    requires Oriented(a, o, r) && c in o && o[c].Hung? && o[c].peer == r
    ensures Oriented(a, Reroot(o, r, c), c)
  {
    var o' := Reroot(o, r, c);
    assert NodeOk(a, o, c) && UpOk(a, o, c);
    forall i | i in o' ensures NodeOk(a, o', i) {
      assert NodeOk(a, o, i);
      assert UpOk(a, o', i);
      forall p | 0 <= p < |a[i].ports| ensures DownOk(a, o', i, p) {
        assert DownOk(a, o, i, p);
        if a[i].ports[p].Some? && !IsUp(o'[i], p) {
          var k := a[i].ports[p].value;
          if i == c && p == o[c].port {
            assert k == r;
          } else {
            assert DownOk(a, o, i, p) && !IsUp(o[i], p);
            assert k != c;
          }
        }
      }
    }
  }

  /** Every hang has a peer of lower level. */
  ghost predicate Leveled(o: Orient) {
    forall i | i in o && o[i].Hung? :: o[i].peer in o && Level(o[o[i].peer]) < o[i].level
  }

  lemma OrientedLeveled(a: seq<Node>, o: Orient, top: nat)
    requires Oriented(a, o, top)
    ensures Leveled(o)
  {
    forall i | i in o && o[i].Hung? ensures o[i].peer in o && Level(o[o[i].peer]) < o[i].level {
      assert UpOk(a, o, i);
    }
  }

  /** The orientation towards `l`. */
  ghost function Towards(o: Orient, l: nat): (o': Orient)
    requires Leveled(o) && l in o
    ensures o'.Keys == o.Keys
    ensures forall x | x in o && Level(o[x]) > Level(o[l]) ::
      o'[x].Hung? && o'[x].port == o[x].port && o'[x].peer == o[x].peer && o'[x].slot == o[x].slot
    decreases Level(o[l])
  {
    if o[l].Top? then o else
    Reroot(Towards(o, o[l].peer), o[l].peer, l)
  }

  lemma {:induction false} TowardsOriented(a: seq<Node>, o: Orient, top: nat, l: nat)
    requires Oriented(a, o, top) && Leveled(o) && l in o
    ensures Oriented(a, Towards(o, l), l)
    decreases Level(o[l])
  {
    if o[l].Hung? {
      TowardsOriented(a, o, top, o[l].peer);
      RerootOriented(a, Towards(o, o[l].peer), o[l].peer, l);
    }
  }

  // ---- subtrees ------------------------------------------------------------

  /** Going up from `i` one meets `r`. */
  ghost predicate Under(o: Orient, r: nat, i: nat)
    requires Leveled(o) && i in o
    decreases Level(o[i])
  {
    i == r || (o[i].Hung? && Under(o, r, o[i].peer))
  }

  ghost function Below(o: Orient, r: nat): set<nat>
    requires Leveled(o)
  {
    set i | i in o && Under(o, r, i)
  }

  /** A set that contains the parent of each of its nodes, other than the top. */
  ghost predicate UpClosed(o: Orient, s: set<nat>) {
    forall i | i in s && i in o && o[i].Hung? :: o[i].peer in s
  }

  /** Such a set misses the whole subtree of any node it misses. */
  lemma {:induction false} MissesSubtree(o: Orient, s: set<nat>, r: nat, i: nat)
    requires Leveled(o) && UpClosed(o, s) && r !in s && i in o && Under(o, r, i)
    ensures i !in s
    decreases Level(o[i])
  {
    if i != r {
      MissesSubtree(o, s, r, o[i].peer);
    }
  }

  /** A set that contains `r` and all children of its nodes contains the subtree of `r`. */
  ghost predicate DownClosed(o: Orient, s: set<nat>) {
    forall i | i in o && o[i].Hung? && o[i].peer in s :: i in s
  }

  lemma {:induction false} CoversSubtree(o: Orient, s: set<nat>, r: nat, i: nat)
    requires Leveled(o) && DownClosed(o, s) && r in s && i in o && Under(o, r, i)
    ensures i in s
    decreases Level(o[i])
  {
    if i != r {
      CoversSubtree(o, s, r, o[i].peer);
    }
  }

  lemma {:induction false} AllUnderTop(a: seq<Node>, o: Orient, top: nat, i: nat)
    requires Oriented(a, o, top) && Leveled(o) && i in o
    ensures Under(o, top, i)
    decreases Level(o[i])
  {
    if i != top {
      AllUnderTop(a, o, top, o[i].peer);
    }
  }
}
