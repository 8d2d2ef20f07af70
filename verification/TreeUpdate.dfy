/** Comparing the old tree with the new one in lockstep from the local node.

    The two trees live in one store.  `Diff` fixes their state before the update;
    `Progress` says how far the comparison has come: which old nodes were paired with
    which new ones, which ports were handled, what was found lost or newly created.
 */
module TreeUpdate {
  import opened Basics
  import opened NodeStore
  import opened Orientation

  datatype Diff = Diff(a: seq<Node>, o0: Orient, l0: nat, o1: Orient, l1: nat, color: nat)

  ghost predicate ValidDiff(d: Diff) {
    && Oriented(d.a, d.o0, d.l0) && Oriented(d.a, d.o1, d.l1) && Leveled(d.o0) && Leveled(d.o1)
    && d.o0.Keys !! d.o1.Keys
    && (forall i | i in d.o0 || i in d.o1 :: d.a[i].color != d.color)
  }

  // ---- the hypothesis on matched nodes -------------------------------------

  /** The node reached from `i` by leaving through the given ports, one after the other. */
  function Follow(a: seq<Node>, i: nat, path: seq<nat>): Option<nat> {
    if path == [] then Some(i) else
    var k := Follow(a, i, path[..|path| - 1]);
    if k.None? then None else Leave(a, k.value, path[|path| - 1])
  }

  function Leave(a: seq<Node>, k: nat, p: nat): Option<nat> {
    if k < |a| && p < |a[k].ports| then a[k].ports[p] else None
  }

  ghost predicate LeadsBack(a: seq<Node>, k: nat, q: nat, i: nat) { Leave(a, k, q) == Some(i) }

  /** Equal port counts, and where both are connected, the same port at the far end. */
  ghost predicate PairOk(a: seq<Node>, i: nat, j: nat) {
    && i < |a| && j < |a| && |a[i].ports| == |a[j].ports|
    && forall p | 0 <= p < |a[i].ports| && a[i].ports[p].Some? && a[j].ports[p].Some? ::
      SameFarEnd(a, a[i].ports[p].value, i, a[j].ports[p].value, j)
  }

  ghost predicate SameFarEnd(a: seq<Node>, x: nat, i: nat, y: nat, j: nat) {
    forall q: nat :: LeadsBack(a, x, q, i) <==> LeadsBack(a, y, q, j)
  }

  ghost predicate Reached(d: Diff, i: nat, j: nat) {
    exists path :: Follow(d.a, d.l0, path) == Some(i) && Follow(d.a, d.l1, path) == Some(j)
  }

  /** What update_tree relies on without checking it (it only warns about port counts). */
  ghost predicate Compatible(d: Diff) {
    forall i, j | Reached(d, i, j) :: PairOk(d.a, i, j)
  }

  lemma ReachedStep(d: Diff, i: nat, j: nat, p: nat)
    requires Reached(d, i, j) && PairOk(d.a, i, j) && p < |d.a[i].ports|
    requires d.a[i].ports[p].Some? && d.a[j].ports[p].Some?
    ensures Reached(d, d.a[i].ports[p].value, d.a[j].ports[p].value)
  {
    var path :| Follow(d.a, d.l0, path) == Some(i) && Follow(d.a, d.l1, path) == Some(j);
    var longer := path + [p];
    assert longer[..|longer| - 1] == path;
    assert Follow(d.a, d.l0, longer) == d.a[i].ports[p];
    assert Follow(d.a, d.l1, longer) == d.a[j].ports[p];
  }

  /** `f` finds the old node of every new node that was there before: links between those are
      what they were, port for port, and a port that is connected in both trees leads to such
      a node.  Anything may have been plugged in or unplugged elsewhere. */
  ghost predicate Replugged(d: Diff, f: map<nat, nat>) {
    && d.l1 in f && f[d.l1] == d.l0
    && (forall j | j in f :: j < |d.a| && f[j] < |d.a| && |d.a[f[j]].ports| == |d.a[j].ports|)
    && (forall j, p: nat | j in f :: PortStays(d, f, j, p))
    && (forall j, k, p: nat | j in f && k in f :: LeadsBack(d.a, f[j], p, f[k]) <==> LeadsBack(d.a, j, p, k))
  }

  ghost predicate PortStays(d: Diff, f: map<nat, nat>, j: nat, p: nat)
    requires j in f
  {
    var x, y := Leave(d.a, f[j], p), Leave(d.a, j, p);
    x.Some? && y.Some? ==> y.value in f && x.value == f[y.value]
  }

  lemma {:induction false} RepluggedFollow(d: Diff, f: map<nat, nat>, path: seq<nat>)
    requires Replugged(d, f)
    ensures var i, j := Follow(d.a, d.l0, path), Follow(d.a, d.l1, path);
      i.Some? && j.Some? ==> j.value in f && i.value == f[j.value]
  {
    if path != [] {
      var front, p := path[..|path| - 1], path[|path| - 1];
      RepluggedFollow(d, f, front);
      var k := Follow(d.a, d.l1, front);
      if k.Some? && k.value in f {
        assert PortStays(d, f, k.value, p);
      }
    }
  }

  /** The hypothesis holds whenever nodes were only plugged in and unplugged. */
  lemma RepluggedIsCompatible(d: Diff, f: map<nat, nat>)
    requires Replugged(d, f)
    ensures Compatible(d)
  {
    hide LeadsBack;
    forall i: nat, j: nat | Reached(d, i, j) ensures PairOk(d.a, i, j) {
      var path :| Follow(d.a, d.l0, path) == Some(i) && Follow(d.a, d.l1, path) == Some(j);
      RepluggedFollow(d, f, path);
      forall p | 0 <= p < |d.a[i].ports| && d.a[i].ports[p].Some? && d.a[j].ports[p].Some?
        ensures SameFarEnd(d.a, d.a[i].ports[p].value, i, d.a[j].ports[p].value, j)
      {
        assert PortStays(d, f, j, p);
      }
    }
  }

  // ---- progress ------------------------------------------------------------

  /** `w` pairs old nodes with new ones, `v` is its inverse.  Nodes in `done` are finished;
      node `cur` is being compared, its ports below `port` are handled. */
  datatype Progress = Progress(
    w: map<nat, nat>, v: map<nat, nat>, done: set<nat>, marked: set<nat>, cur: nat, port: nat,
    lost: set<nat>, born: set<nat>)

  predicate Handled(s: Progress, i: nat, p: nat) { i in s.done || (i == s.cur && p < s.port) }

  ghost predicate Inverse(s: Progress) {
    && (forall i | i in s.w :: s.w[i] in s.v && s.v[s.w[i]] == i)
    && (forall j | j in s.v :: s.v[j] in s.w && s.w[s.v[j]] == j)
  }

  /** A pair other than the local nodes hangs below an earlier pair, in the same way. */
  ghost predicate PairHangs(d: Diff, s: Progress, i: nat)
    requires i in s.w
  {
    var j := s.w[i];
    && i in d.o0 && j in d.o1 && Reached(d, i, j)
    && (i == d.l0 <==> j == d.l1)
    && (i != d.l0 ==>
      && d.o0[i].Hung? && d.o1[j].Hung? && d.o0[i].port == d.o1[j].port && d.o0[i].slot == d.o1[j].slot
      && d.o0[i].peer in s.w && s.w[d.o0[i].peer] == d.o1[j].peer && Handled(s, d.o0[i].peer, d.o0[i].slot))
  }

  /** What handling a port that does not lead back up has recorded. */
  ghost predicate PortRecorded(d: Diff, s: Progress, i: nat, p: nat)
    requires i in s.w && i < |d.a| && s.w[i] < |d.a| && p < |d.a[i].ports| == |d.a[s.w[i]].ports|
    requires i in d.o0
  {
    var x, y := d.a[i].ports[p], d.a[s.w[i]].ports[p];
    Handled(s, i, p) && !IsUp(d.o0[i], p) ==>
      && (x.Some? && y.Some? ==> x.value in s.w && s.w[x.value] == y.value)
      && (x.Some? && y.None? ==> x.value in s.lost)
      && (x.None? && y.Some? ==> y.value in s.born)
  }

  ghost predicate Pairing(d: Diff, s: Progress) {
    && Inverse(s) && d.l0 in s.w && s.w[d.l0] == d.l1
    && (forall i | i in s.w :: PairHangs(d, s, i) && PairOk(d.a, i, s.w[i]))
    && s.done <= s.marked <= s.w.Keys && s.marked <= s.done + {s.cur} && s.cur in s.w
    && (s.port > 0 ==> s.cur in s.marked)
    && (forall i, p | i in s.w && 0 <= p < |d.a[i].ports| :: PortRecorded(d, s, i, p))
  }

  ghost predicate LostBelow(d: Diff, s: Progress, x: nat) {
    && x in d.o0 && x !in s.w && d.o0[x].Hung?
    && var u := d.o0[x].peer;
      (u in s.lost || (u in s.w && Handled(s, u, d.o0[x].slot) && Leave(d.a, s.w[u], d.o0[x].slot).None?))
  }

  ghost predicate BornBelow(d: Diff, s: Progress, y: nat) {
    && y in d.o1 && y !in s.v && d.o1[y].Hung?
    && var u := d.o1[y].peer;
      (u in s.born || (u in s.v && Handled(s, s.v[u], d.o1[y].slot) && Leave(d.a, s.v[u], d.o1[y].slot).None?))
  }

  ghost predicate Outcasts(d: Diff, s: Progress) {
    && (forall x | x in s.lost :: LostBelow(d, s, x))
    && (forall y | y in s.born :: BornBelow(d, s, y))
    && DownClosed(d.o0, s.lost) && DownClosed(d.o1, s.born)
  }

  ghost predicate ProgressOk(d: Diff, s: Progress) { Pairing(d, s) && Outcasts(d, s) }

  // ---- facts about the port being looked at --------------------------------

  /** An old neighbour further from the local node was neither paired nor lost before. */
  lemma OldIsNew(d: Diff, s: Progress, x: nat)
    requires ValidDiff(d) && ProgressOk(d, s)
    requires x in d.o0 && d.o0[x].Hung? && d.o0[x].peer in s.w && !Handled(s, d.o0[x].peer, d.o0[x].slot)
    ensures x !in s.w && x !in s.lost
  {
  }

  lemma NewIsNew(d: Diff, s: Progress, y: nat)
    requires ValidDiff(d) && ProgressOk(d, s)
    requires y in d.o1 && d.o1[y].Hung? && d.o1[y].peer in s.v && !Handled(s, s.v[d.o1[y].peer], d.o1[y].slot)
    ensures y !in s.v && y !in s.born
  {
  }

  /** Everything below such a node is untouched as well. */
  lemma OldSubtreeIsNew(d: Diff, s: Progress, x: nat, i: nat)
    requires ValidDiff(d) && ProgressOk(d, s)
    requires x in d.o0 && x !in s.w && x !in s.lost && i in d.o0 && Under(d.o0, x, i)
    ensures i !in s.w && i !in s.lost
  {
    var u := s.w.Keys + s.lost;
    forall k | k in u && k in d.o0 && d.o0[k].Hung? ensures d.o0[k].peer in u {
      if k in s.w {
        assert PairHangs(d, s, k);
        assert Oriented(d.a, d.o0, d.l0);
      } else {
        assert LostBelow(d, s, k);
      }
    }
    MissesSubtree(d.o0, u, x, i);
  }

  lemma NewSubtreeIsNew(d: Diff, s: Progress, y: nat, i: nat)
    requires ValidDiff(d) && ProgressOk(d, s)
    requires y in d.o1 && y !in s.v && y !in s.born && i in d.o1 && Under(d.o1, y, i)
    ensures i !in s.v && i !in s.born
  {
    var u := s.v.Keys + s.born;
    forall k | k in u && k in d.o1 && d.o1[k].Hung? ensures d.o1[k].peer in u {
      if k in s.v {
        assert PairHangs(d, s, s.v[k]);
        assert Oriented(d.a, d.o1, d.l1);
      } else {
        assert BornBelow(d, s, k);
      }
    }
    MissesSubtree(d.o1, u, y, i);
  }

  /** Port `port` of the current pair, in terms of the two orientations. */
  ghost predicate PortFacts(d: Diff, s: Progress)
    requires s.cur in s.w && s.cur < |d.a| && s.w[s.cur] < |d.a|
    requires s.port < |d.a[s.cur].ports| == |d.a[s.w[s.cur]].ports| && s.cur in d.o0
  {
    var i, j, p := s.cur, s.w[s.cur], s.port;
    var x, y := d.a[i].ports[p], d.a[j].ports[p];
    && (IsUp(d.o0[i], p) ==> UpPair(d, s, i, x, y))
    && (!IsUp(d.o0[i], p) && x.Some? ==> FreshOld(d, s, i, p, x.value))
    && (!IsUp(d.o0[i], p) && y.Some? ==> FreshNew(d, s, j, p, y.value))
  }

  ghost predicate UpPair(d: Diff, s: Progress, i: nat, x: Option<nat>, y: Option<nat>)
    requires i in d.o0 && d.o0[i].Hung?
  {
    && x.Some? && y.Some? && x.value == d.o0[i].peer
    && x.value in s.w && s.w[x.value] == y.value && x.value in s.done
  }

  /** `x` hangs at port `p` of `i` and was not seen before. */
  ghost predicate FreshOld(d: Diff, s: Progress, i: nat, p: nat, x: nat) {
    && x in d.o0 && d.o0[x].Hung? && d.o0[x].peer == i && d.o0[x].slot == p
    && x !in s.w && x !in s.lost
  }

  ghost predicate FreshNew(d: Diff, s: Progress, j: nat, p: nat, y: nat) {
    && y in d.o1 && d.o1[y].Hung? && d.o1[y].peer == j && d.o1[y].slot == p
    && y !in s.v && y !in s.born
  }

  lemma FreshNewIs(d: Diff, s: Progress, j: nat, p: nat, y: nat)
    requires FreshNew(d, s, j, p, y)
    ensures y in d.o1 && d.o1[y].Hung? && d.o1[y].peer == j && d.o1[y].slot == p && y !in s.v && y !in s.born
  {
  }

  lemma FreshOldIs(d: Diff, s: Progress, i: nat, p: nat, x: nat)
    requires FreshOld(d, s, i, p, x)
    ensures x in d.o0 && d.o0[x].Hung? && d.o0[x].peer == i && d.o0[x].slot == p && x !in s.w && x !in s.lost
  {
  }

  lemma PortFactsHold(d: Diff, s: Progress)
    requires ValidDiff(d) && ProgressOk(d, s) && s.cur !in s.done && s.cur in s.marked
    requires s.cur < |d.a| && s.w[s.cur] < |d.a| && s.port < |d.a[s.cur].ports| && s.cur in d.o0
    requires |d.a[s.cur].ports| == |d.a[s.w[s.cur]].ports|
    ensures PortFacts(d, s)
  {
    var i, j, p := s.cur, s.w[s.cur], s.port;
    var x, y := d.a[i].ports[p], d.a[j].ports[p];
    assert PairHangs(d, s, i) && NodeOk(d.a, d.o0, i) && NodeOk(d.a, d.o1, j);
    assert UpOk(d.a, d.o0, i) && UpOk(d.a, d.o1, j) && DownOk(d.a, d.o0, i, p) && DownOk(d.a, d.o1, j, p);
    assert i == d.l0 ==> d.o0[i].Top? && d.o1[j].Top?;
    assert IsUp(d.o0[i], p) == IsUp(d.o1[j], p);
    if !IsUp(d.o0[i], p) && x.Some? {
      OldIsNew(d, s, x.value);
    }
    if !IsUp(d.o0[i], p) && y.Some? {
      NewIsNew(d, s, y.value);
    }
  }

  // ---- the steps of the comparison -----------------------------------------

  /** The current pair, while its ports are being looked at. */
  ghost predicate Busy(d: Diff, s: Progress) {
    && ProgressOk(d, s) && s.cur !in s.done && s.cur in s.marked
    && s.cur < |d.a| && s.w[s.cur] < |d.a| && s.cur in d.o0 && |d.a[s.cur].ports| == |d.a[s.w[s.cur]].ports|
  }

  lemma BusyFacts(d: Diff, s: Progress)
    requires Busy(d, s)
    ensures ProgressOk(d, s) && s.cur !in s.done && s.cur in s.marked && s.cur in s.w
    ensures s.cur < |d.a| && s.w[s.cur] < |d.a| && s.cur in d.o0 && |d.a[s.cur].ports| == |d.a[s.w[s.cur]].ports|
  {
  }

  lemma StartNode(d: Diff, s: Progress, i: nat)
    requires ValidDiff(d) && ProgressOk(d, s) && s.port == 0 && s.marked == s.done && i in s.w && i !in s.done
    ensures Busy(d, s.(cur := i, marked := s.marked + {i}))
  {
    hide *;
    var s' := s.(cur := i, marked := s.marked + {i});
    ProgressSets(d, s);
    HandledBy(s);
    HandledBy(s');
    HandledSame(d, s, s');
    PairIsBusy(d, s', i);
  }

  lemma ProgressSets(d: Diff, s: Progress)
    requires ProgressOk(d, s)
    ensures s.done <= s.marked <= s.w.Keys && s.marked <= s.done + {s.cur} && s.cur in s.w
  {
    hide Inverse, PairHangs, PairOk, PortRecorded, Outcasts;
  }

  lemma HandledBy(s: Progress)
    ensures forall i: nat, p: nat :: Handled(s, i, p) <==> i in s.done || (i == s.cur && p < s.port)
  {
  }

  lemma PairIsBusy(d: Diff, s: Progress, i: nat)
    requires ValidDiff(d) && ProgressOk(d, s) && i == s.cur && i in s.w && i !in s.done && i in s.marked
    ensures Busy(d, s)
  {
    hide Inverse, PortRecorded, Outcasts, Reached;
    assert PairHangs(d, s, i) && PairOk(d.a, i, s.w[i]);
  }

  lemma EndNode(d: Diff, s: Progress)
    requires ValidDiff(d) && Busy(d, s) && s.port == |d.a[s.cur].ports|
    ensures ProgressOk(d, s.(done := s.done + {s.cur}, port := 0))
    ensures s.(done := s.done + {s.cur}, port := 0).marked == s.done + {s.cur}
  {
    hide PairHangs, PortRecorded, Outcasts, PairOk, Inverse, ValidDiff;
    var s' := s.(done := s.done + {s.cur}, port := 0);
    HandledSame(d, s, s');
  }

  /** Progress only depends on which of the existing ports are handled. */
  lemma HandledSame(d: Diff, s: Progress, s': Progress)
    requires ValidDiff(d) && ProgressOk(d, s)
    requires s'.w == s.w && s'.v == s.v && s'.lost == s.lost && s'.born == s.born
    requires forall i, p :: Handled(s, i, p) ==> Handled(s', i, p)
    requires forall i, p | i in s.w && 0 <= p < |d.a[i].ports| :: Handled(s', i, p) ==> Handled(s, i, p)
    requires s'.done <= s'.marked <= s'.w.Keys && s'.marked <= s'.done + {s'.cur} && s'.cur in s'.w
    requires s'.port > 0 ==> s'.cur in s'.marked
    ensures ProgressOk(d, s')
  {
    hide PairOk, PairHangs, PortRecorded, Handled, Outcasts, ValidDiff;
    forall i | i in s'.w ensures PairHangs(d, s', i) && PairOk(d.a, i, s'.w[i]) {
      SamePairHangs(d, s, s', i);
    }
    forall i | i in s'.w ensures i < |d.a| && s'.w[i] < |d.a| && |d.a[i].ports| == |d.a[s'.w[i]].ports| && i in d.o0 {
      PairBounds(d, s', i);
    }
    forall i, p | i in s'.w && 0 <= p < |d.a[i].ports| ensures PortRecorded(d, s', i, p) {
      SameRecorded(d, s, s', i, p);
    }
    SameOutcasts(d, s, s');
  }

  lemma SamePairHangs(d: Diff, s: Progress, s': Progress, i: nat)
    requires i in s.w && s'.w == s.w && PairHangs(d, s, i)
    requires forall i, p :: Handled(s, i, p) ==> Handled(s', i, p)
    ensures PairHangs(d, s', i)
  {
    hide Reached, Handled;
  }

  lemma SameRecorded(d: Diff, s: Progress, s': Progress, i: nat, p: nat)
    requires i in s.w && i < |d.a| && s.w[i] < |d.a| && p < |d.a[i].ports| == |d.a[s.w[i]].ports|
    requires i in d.o0 && s'.w == s.w && s'.lost == s.lost && s'.born == s.born
    requires PortRecorded(d, s, i, p) && (Handled(s', i, p) ==> Handled(s, i, p))
    ensures PortRecorded(d, s', i, p)
  {
    hide Handled;
  }

  lemma SameOutcasts(d: Diff, s: Progress, s': Progress)
    requires Outcasts(d, s) && s'.w == s.w && s'.v == s.v && s'.lost == s.lost && s'.born == s.born
    requires forall i, p :: Handled(s, i, p) ==> Handled(s', i, p)
    ensures Outcasts(d, s')
  {
    hide Handled, DownClosed;
    forall x | x in s'.lost ensures LostBelow(d, s', x) {
      assert LostBelow(d, s, x);
    }
    forall y | y in s'.born ensures BornBelow(d, s', y) {
      assert BornBelow(d, s, y);
    }
  }

  /** One port further, with more pairs, losses and finds. */
  ghost predicate Grows(s: Progress, s': Progress) {
    && s' == Progress(s'.w, s'.v, s.done, s.marked, s.cur, s.port + 1, s'.lost, s'.born)
    && s.w.Keys <= s'.w.Keys && (forall i | i in s.w :: s'.w[i] == s.w[i])
    && s.v.Keys <= s'.v.Keys && (forall j | j in s.v :: s'.v[j] == s.v[j])
    && s.lost <= s'.lost && s.born <= s'.born
  }

  ghost predicate NewPairs(d: Diff, s: Progress, s': Progress) {
    forall i | i in s'.w && i !in s.w :: PairHangs(d, s', i) && PairOk(d.a, i, s'.w[i])
  }

  ghost predicate NewOutcasts(d: Diff, s: Progress, s': Progress) {
    && (forall x | x in s'.lost :: x !in s'.w)
    && (forall y | y in s'.born :: y !in s'.v)
    && (forall x | x in s'.lost && x !in s.lost :: LostBelow(d, s', x))
    && (forall y | y in s'.born && y !in s.born :: BornBelow(d, s', y))
    && DownClosed(d.o0, s'.lost) && DownClosed(d.o1, s'.born)
  }

  /** The general step: pairs, losses and finds only grow, and port `port` is recorded. */
  lemma GrowStep(d: Diff, s: Progress, s': Progress)
    requires ValidDiff(d) && Busy(d, s) && s.port < |d.a[s.cur].ports|
    requires Grows(s, s') && Inverse(s') && NewPairs(d, s, s') && NewOutcasts(d, s, s')
    requires s.cur in s'.w && s'.w[s.cur] == s.w[s.cur] && PortRecorded(d, s', s.cur, s.port)
    ensures Busy(d, s')
  {
    GrowPairing(d, s, s');
    GrowOutcasts(d, s, s');
    hide Pairing, Outcasts;
    assert ProgressOk(d, s');
  }

  lemma GrowPairing(d: Diff, s: Progress, s': Progress)
    requires ValidDiff(d) && Busy(d, s) && s.port < |d.a[s.cur].ports|
    requires Grows(s, s') && Inverse(s') && NewPairs(d, s, s')
    requires s.cur in s'.w && s'.w[s.cur] == s.w[s.cur] && PortRecorded(d, s', s.cur, s.port)
    ensures Pairing(d, s')
  {
    hide PairOk, PairHangs, PortRecorded, Handled, Outcasts, Inverse, ValidDiff;
    forall i | i in s'.w ensures PairHangs(d, s', i) && PairOk(d.a, i, s'.w[i]) {
      if i in s.w {
        PairHangsGrow(d, s, s', i);
      }
    }
    forall i | i in s'.w ensures i < |d.a| && s'.w[i] < |d.a| && |d.a[i].ports| == |d.a[s'.w[i]].ports| && i in d.o0 {
      PairBounds(d, s', i);
    }
    forall i, p | i in s'.w && 0 <= p < |d.a[i].ports| ensures PortRecorded(d, s', i, p) {
      if i !in s.w {
        NewPairUnhandled(d, s, s', i, p);
      } else if i != s.cur || p != s.port {
        PortRecordedGrow(d, s, s', i, p);
      }
    }
  }

  lemma PairHangsGrow(d: Diff, s: Progress, s': Progress, i: nat)
    requires i in s.w && i in s'.w && s'.w[i] == s.w[i] && PairHangs(d, s, i)
    requires s.w.Keys <= s'.w.Keys && forall i | i in s.w :: s'.w[i] == s.w[i]
    requires s'.done == s.done && s'.cur == s.cur && s'.port == s.port + 1
    ensures PairHangs(d, s', i)
  {
    hide Reached;
  }

  lemma NewPairUnhandled(d: Diff, s: Progress, s': Progress, i: nat, p: nat)
    requires i in s'.w && i < |d.a| && s'.w[i] < |d.a| && p < |d.a[i].ports| == |d.a[s'.w[i]].ports| && i in d.o0
    requires i !in s.w && s.done <= s.w.Keys && s.cur in s.w && s'.done == s.done && s'.cur == s.cur
    ensures PortRecorded(d, s', i, p)
  {
  }

  lemma PortRecordedGrow(d: Diff, s: Progress, s': Progress, i: nat, p: nat)
    requires i in s.w && i in s'.w && s'.w[i] == s.w[i] && (i != s.cur || p != s.port)
    requires i < |d.a| && s.w[i] < |d.a| && p < |d.a[i].ports| == |d.a[s.w[i]].ports| && i in d.o0
    requires s.w.Keys <= s'.w.Keys && forall i | i in s.w :: s'.w[i] == s.w[i]
    requires s.lost <= s'.lost && s.born <= s'.born
    requires s'.done == s.done && s'.cur == s.cur && s'.port == s.port + 1 && PortRecorded(d, s, i, p)
    ensures PortRecorded(d, s', i, p)
  {
  }

  lemma PairBounds(d: Diff, s: Progress, i: nat)
    requires i in s.w && PairHangs(d, s, i) && PairOk(d.a, i, s.w[i])
    ensures i < |d.a| && s.w[i] < |d.a| && |d.a[i].ports| == |d.a[s.w[i]].ports| && i in d.o0
  {
  }

  lemma GrowOutcasts(d: Diff, s: Progress, s': Progress)
    requires Outcasts(d, s) && Grows(s, s') && NewOutcasts(d, s, s')
    ensures Outcasts(d, s')
  {
    forall x | x in s'.lost ensures LostBelow(d, s', x) {
      if x in s.lost {
        assert LostBelow(d, s, x);
      }
    }
    forall y | y in s'.born ensures BornBelow(d, s', y) {
      if y in s.born {
        assert BornBelow(d, s, y);
      }
    }
  }

  /** Nothing to do: the port leads back up, or is unconnected in both trees. */
  lemma SkipPort(d: Diff, s: Progress)
    requires ValidDiff(d) && Busy(d, s) && s.port < |d.a[s.cur].ports|
    requires IsUp(d.o0[s.cur], s.port)
          || (d.a[s.cur].ports[s.port].None? && d.a[s.w[s.cur]].ports[s.port].None?)
    ensures Busy(d, s.(port := s.port + 1))
  {
    hide *;
    var s' := s.(port := s.port + 1);
    BusyFacts(d, s);
    SkipRecorded(d, s, s');
    ProgressInverse(d, s);
    InverseSame(s, s');
    OutcastsApart(d, s);
    OutcastsIntro(d, s, s');
    GrowStep(d, s, s');
  }

  lemma SkipRecorded(d: Diff, s: Progress, s': Progress)
    requires s.cur in s.w && s.cur < |d.a| && s.w[s.cur] < |d.a| && s.cur in d.o0
    requires s.port < |d.a[s.cur].ports| == |d.a[s.w[s.cur]].ports| && s'.w == s.w
    requires IsUp(d.o0[s.cur], s.port)
          || (d.a[s.cur].ports[s.port].None? && d.a[s.w[s.cur]].ports[s.port].None?)
    ensures PortRecorded(d, s', s.cur, s.port)
  {
  }

  /** The far ends of a connection present in both trees form the next pair. */
  lemma KeepPort(d: Diff, s: Progress, x: nat, y: nat)
    requires ValidDiff(d) && Compatible(d) && Busy(d, s) && s.port < |d.a[s.cur].ports|
    requires d.a[s.cur].ports[s.port] == Some(x) && d.a[s.w[s.cur]].ports[s.port] == Some(y)
    requires !IsUp(d.o0[s.cur], s.port)
    ensures Busy(d, s.(port := s.port + 1, w := s.w[x := y], v := s.v[y := x]))
    ensures x !in s.w && x !in s.lost && y !in s.v && y !in s.born && x in d.o0 && y in d.o1
  {
    var s' := s.(port := s.port + 1, w := s.w[x := y], v := s.v[y := x]);
    hide *;
    BusyFacts(d, s);
    KeepFresh(d, s, x, y);
    FreshOldIs(d, s, s.cur, s.port, x);
    FreshNewIs(d, s, s.w[s.cur], s.port, y);
    ProgressInverse(d, s);
    KeepPairHangs(d, s, x, y);
    KeepInverse(s, s', x, y);
    KeepOutcasts(d, s, x, y);
    KeepRecorded(d, s, s', x, y);
    KeepGrows(s, s', x, y);
    KeepNewPairs(d, s, s', x);
    GrowStep(d, s, s');
  }

  lemma KeepGrows(s: Progress, s': Progress, x: nat, y: nat)
    requires s' == s.(port := s.port + 1, w := s.w[x := y], v := s.v[y := x]) && x !in s.w && y !in s.v
    ensures Grows(s, s')
  {
  }

  lemma KeepNewPairs(d: Diff, s: Progress, s': Progress, x: nat)
    requires x in s'.w && PairHangs(d, s', x) && PairOk(d.a, x, s'.w[x]) && forall i | i in s'.w && i !in s.w :: i == x
    ensures NewPairs(d, s, s')
  {
  }

  lemma InverseSame(s: Progress, s': Progress)
    requires Inverse(s) && s'.w == s.w && s'.v == s.v
    ensures Inverse(s')
  {
  }

  lemma ProgressInverse(d: Diff, s: Progress)
    requires ProgressOk(d, s)
    ensures Inverse(s) && Outcasts(d, s)
  {
  }

  lemma KeepRecorded(d: Diff, s: Progress, s': Progress, x: nat, y: nat)
    requires s.cur in s.w && s.cur < |d.a| && s.w[s.cur] < |d.a| && s.cur in d.o0
    requires s.port < |d.a[s.cur].ports| == |d.a[s.w[s.cur]].ports| && x != s.cur
    requires d.a[s.cur].ports[s.port] == Some(x) && d.a[s.w[s.cur]].ports[s.port] == Some(y)
    requires s'.w == s.w[x := y]
    ensures PortRecorded(d, s', s.cur, s.port)
  {
    hide Handled;
  }

  lemma KeepOutcasts(d: Diff, s: Progress, x: nat, y: nat)
    requires ProgressOk(d, s) && FreshOld(d, s, s.cur, s.port, x) && FreshNew(d, s, s.w[s.cur], s.port, y)
    ensures NewOutcasts(d, s, s.(port := s.port + 1, w := s.w[x := y], v := s.v[y := x])) && x !in s.w && y !in s.v
  {
    hide Pairing, DownClosed;
  }

  lemma KeepFresh(d: Diff, s: Progress, x: nat, y: nat)
    requires ValidDiff(d) && Busy(d, s) && s.port < |d.a[s.cur].ports|
    requires d.a[s.cur].ports[s.port] == Some(x) && d.a[s.w[s.cur]].ports[s.port] == Some(y)
    requires !IsUp(d.o0[s.cur], s.port)
    ensures FreshOld(d, s, s.cur, s.port, x) && FreshNew(d, s, s.w[s.cur], s.port, y)
  {
    hide ProgressOk;
    PortFactsHold(d, s);
  }

  lemma KeepInverse(s: Progress, s': Progress, x: nat, y: nat)
    requires Inverse(s) && x !in s.w && y !in s.v && s'.w == s.w[x := y] && s'.v == s.v[y := x]
    ensures Inverse(s')
  {
  }

  lemma KeepPairHangs(d: Diff, s: Progress, x: nat, y: nat)
    requires ValidDiff(d) && Compatible(d) && Busy(d, s) && s.port < |d.a[s.cur].ports|
    requires d.a[s.cur].ports[s.port] == Some(x) && d.a[s.w[s.cur]].ports[s.port] == Some(y)
    requires FreshOld(d, s, s.cur, s.port, x) && FreshNew(d, s, s.w[s.cur], s.port, y)
    ensures var s' := s.(port := s.port + 1, w := s.w[x := y], v := s.v[y := x]);
      PairHangs(d, s', x) && PairOk(d.a, x, y)
  {
    var i, j := s.cur, s.w[s.cur];
    assert PairHangs(d, s, i) && PairOk(d.a, i, j);
    ReachedStep(d, i, j, s.port);
    assert SameFarEnd(d.a, x, i, y, j);
    FarEndUp(d, x, y);
  }

  /** The same far port means the same upward port. */
  lemma FarEndUp(d: Diff, x: nat, y: nat)
    requires ValidDiff(d) && x in d.o0 && y in d.o1 && d.o0[x].Hung? && d.o1[y].Hung?
    requires SameFarEnd(d.a, x, d.o0[x].peer, y, d.o1[y].peer)
    ensures d.o0[x].port == d.o1[y].port
  {
    var j, q := d.o1[y].peer, d.o0[x].port;
    assert NodeOk(d.a, d.o0, x) && UpOk(d.a, d.o0, x) && NodeOk(d.a, d.o1, y) && UpOk(d.a, d.o1, y);
    assert LeadsBack(d.a, x, q, d.o0[x].peer);
    assert LeadsBack(d.a, y, q, j);
    assert NodeOk(d.a, d.o1, j) && UpOk(d.a, d.o1, j);
    assert DownOk(d.a, d.o1, y, q);
  }

  /** Only the old tree is connected here: everything behind the port is gone. */
  lemma LosePort(d: Diff, s: Progress, x: nat)
    requires ValidDiff(d) && Busy(d, s) && s.port < |d.a[s.cur].ports|
    requires d.a[s.cur].ports[s.port] == Some(x) && d.a[s.w[s.cur]].ports[s.port] == None
    ensures Busy(d, s.(port := s.port + 1, lost := s.lost + Below(d.o0, x)))
    ensures FreshOld(d, s, s.cur, s.port, x)
    ensures forall i | i in d.o0 && Under(d.o0, x, i) :: i !in s.w && i !in s.lost
  {
    var s' := s.(port := s.port + 1, lost := s.lost + Below(d.o0, x));
    hide *;
    BusyFacts(d, s);
    LoseFresh(d, s, x);
    FreshOldIs(d, s, s.cur, s.port, x);
    LoseOutcasts(d, s, s', x);
    ProgressInverse(d, s);
    InverseSame(s, s');
    LoseRecorded(d, s, s', x);
    GrowStep(d, s, s');
  }

  /** What lies behind a port that only the old tree uses is not handled yet. */
  lemma LoseFresh(d: Diff, s: Progress, x: nat)
    requires ValidDiff(d) && Busy(d, s) && s.port < |d.a[s.cur].ports|
    requires d.a[s.cur].ports[s.port] == Some(x) && d.a[s.w[s.cur]].ports[s.port] == None
    ensures FreshOld(d, s, s.cur, s.port, x)
    ensures forall i | i in d.o0 && Under(d.o0, x, i) :: i !in s.w && i !in s.lost
  {
    hide ProgressOk, Under;
    PortFactsHold(d, s);
    forall i | i in d.o0 && Under(d.o0, x, i) ensures i !in s.w && i !in s.lost {
      OldSubtreeIsNew(d, s, x, i);
    }
  }

  lemma LoseOutcasts(d: Diff, s: Progress, s': Progress, x: nat)
    requires ValidDiff(d) && Busy(d, s) && s.port < |d.a[s.cur].ports| && FreshOld(d, s, s.cur, s.port, x)
    requires d.a[s.w[s.cur]].ports[s.port] == None
    requires forall i | i in d.o0 && Under(d.o0, x, i) :: i !in s.w && i !in s.lost
    requires s' == s.(port := s.port + 1, lost := s.lost + Below(d.o0, x))
    ensures x in s'.lost && NewOutcasts(d, s, s') && Grows(s, s') && NewPairs(d, s, s')
  {
    hide *;
    BusyFacts(d, s);
    DiffLeveled(d);
    FreshOldIs(d, s, s.cur, s.port, x);
    ProgressInverse(d, s);
    OutcastsApart(d, s);
    BelowIs(d.o0, x);
    PortIsHandled(s', s.cur, s.port);
    LeaveNone(d.a, s.w[s.cur], s.port);
    forall i | i in s'.lost && i !in s.lost ensures LostBelow(d, s', i) {
      BelowHangs(d, s', x, i);
    }
    DownClosedUnion(d.o0, s.lost, x);
    OutcastsIntro(d, s, s');
  }

  lemma OutcastsIntro(d: Diff, s: Progress, s': Progress)
    requires s' == s.(port := s.port + 1, lost := s'.lost, born := s'.born) && s.lost <= s'.lost && s.born <= s'.born
    requires (forall i | i in s'.lost :: i !in s.w) && (forall j | j in s'.born :: j !in s.v)
    requires forall x | x in s'.lost && x !in s.lost :: LostBelow(d, s', x)
    requires forall y | y in s'.born && y !in s.born :: BornBelow(d, s', y)
    requires DownClosed(d.o0, s'.lost) && DownClosed(d.o1, s'.born)
    ensures NewOutcasts(d, s, s') && Grows(s, s') && NewPairs(d, s, s')
  {
    hide LostBelow, BornBelow, DownClosed;
  }

  lemma DiffLeveled(d: Diff)
    requires ValidDiff(d)
    ensures Leveled(d.o0) && Leveled(d.o1)
  {
  }

  lemma OutcastsApart(d: Diff, s: Progress)
    requires Outcasts(d, s)
    ensures (forall i | i in s.lost :: i !in s.w) && (forall j | j in s.born :: j !in s.v)
    ensures DownClosed(d.o0, s.lost) && DownClosed(d.o1, s.born)
  {
    hide DownClosed;
  }

  lemma BelowIs(o: Orient, x: nat)
    requires Leveled(o)
    ensures forall i :: i in Below(o, x) <==> i in o && Under(o, x, i)
    ensures x in o ==> x in Below(o, x)
  {
  }

  lemma PortIsHandled(s: Progress, i: nat, p: nat)
    requires i == s.cur && p < s.port
    ensures Handled(s, i, p)
  {
  }

  lemma LeaveNone(a: seq<Node>, k: nat, p: nat)
    requires k < |a| && p < |a[k].ports| && a[k].ports[p] == None
    ensures Leave(a, k, p).None?
  {
  }

  lemma LoseRecorded(d: Diff, s: Progress, s': Progress, x: nat)
    requires s.cur in s.w && s.cur < |d.a| && s.w[s.cur] < |d.a| && s.cur in d.o0
    requires s.port < |d.a[s.cur].ports| == |d.a[s.w[s.cur]].ports| && x in s'.lost && x !in s.w
    requires d.a[s.cur].ports[s.port] == Some(x) && d.a[s.w[s.cur]].ports[s.port] == None
    requires s'.w == s.w
    ensures PortRecorded(d, s', s.cur, s.port)
  {
    hide Handled;
  }

  lemma BelowHangs(d: Diff, s': Progress, x: nat, i: nat)
    requires ValidDiff(d) && x in d.o0 && d.o0[x].Hung? && i in d.o0 && Under(d.o0, x, i)
    requires i !in s'.w && Below(d.o0, x) <= s'.lost
    requires d.o0[x].peer in s'.w && Handled(s', d.o0[x].peer, d.o0[x].slot)
    requires Leave(d.a, s'.w[d.o0[x].peer], d.o0[x].slot).None?
    ensures LostBelow(d, s', i)
  {
    if i != x {
      assert d.o0[i].Hung? && Under(d.o0, x, d.o0[i].peer);
      assert d.o0[i].peer in Below(d.o0, x);
    }
  }

  lemma DownClosedUnion(o: Orient, s: set<nat>, x: nat)
    requires Leveled(o) && DownClosed(o, s)
    ensures DownClosed(o, s + Below(o, x))
  {
    forall i | i in o && o[i].Hung? && o[i].peer in s + Below(o, x) ensures i in s + Below(o, x) {
      if o[i].peer !in s {
        assert Under(o, x, i);
      }
    }
  }

  /** Only the new tree is connected here: everything behind the port is new. */
  lemma BearPort(d: Diff, s: Progress, y: nat)
    requires ValidDiff(d) && Busy(d, s) && s.port < |d.a[s.cur].ports|
    requires d.a[s.cur].ports[s.port] == None && d.a[s.w[s.cur]].ports[s.port] == Some(y)
    ensures Busy(d, s.(port := s.port + 1, born := s.born + Below(d.o1, y)))
    ensures FreshNew(d, s, s.w[s.cur], s.port, y)
    ensures forall i | i in d.o1 && Under(d.o1, y, i) :: i !in s.v && i !in s.born
  {
    var s' := s.(port := s.port + 1, born := s.born + Below(d.o1, y));
    hide *;
    BusyFacts(d, s);
    BearFresh(d, s, y);
    FreshNewIs(d, s, s.w[s.cur], s.port, y);
    BearOutcasts(d, s, s', y);
    ProgressInverse(d, s);
    InverseSame(s, s');
    BearRecorded(d, s, s', y);
    GrowStep(d, s, s');
  }

  /** What lies behind a port that only the new tree uses is not handled yet. */
  lemma BearFresh(d: Diff, s: Progress, y: nat)
    requires ValidDiff(d) && Busy(d, s) && s.port < |d.a[s.cur].ports|
    requires d.a[s.cur].ports[s.port] == None && d.a[s.w[s.cur]].ports[s.port] == Some(y)
    ensures FreshNew(d, s, s.w[s.cur], s.port, y)
    ensures forall i | i in d.o1 && Under(d.o1, y, i) :: i !in s.v && i !in s.born
  {
    hide ProgressOk, Under;
    PortFactsHold(d, s);
    forall i | i in d.o1 && Under(d.o1, y, i) ensures i !in s.v && i !in s.born {
      NewSubtreeIsNew(d, s, y, i);
    }
  }

  lemma BearOutcasts(d: Diff, s: Progress, s': Progress, y: nat)
    requires ValidDiff(d) && Busy(d, s) && s.port < |d.a[s.cur].ports| && FreshNew(d, s, s.w[s.cur], s.port, y)
    requires d.a[s.cur].ports[s.port] == None
    requires forall i | i in d.o1 && Under(d.o1, y, i) :: i !in s.v && i !in s.born
    requires s' == s.(port := s.port + 1, born := s.born + Below(d.o1, y))
    ensures y in s'.born && NewOutcasts(d, s, s') && Grows(s, s') && NewPairs(d, s, s')
  {
    hide *;
    BusyFacts(d, s);
    DiffLeveled(d);
    FreshNewIs(d, s, s.w[s.cur], s.port, y);
    ProgressInverse(d, s);
    OutcastsApart(d, s);
    InverseAt(s, s.cur);
    BelowIs(d.o1, y);
    PortIsHandled(s', s.cur, s.port);
    LeaveNone(d.a, s.cur, s.port);
    forall i | i in s'.born && i !in s.born ensures BornBelow(d, s', i) {
      BelowBorn(d, s', y, i);
    }
    DownClosedUnion(d.o1, s.born, y);
    OutcastsIntro(d, s, s');
  }

  lemma InverseAt(s: Progress, i: nat)
    requires Inverse(s) && i in s.w
    ensures s.w[i] in s.v && s.v[s.w[i]] == i
  {
  }

  lemma BearRecorded(d: Diff, s: Progress, s': Progress, y: nat)
    requires s.cur in s.w && s.cur < |d.a| && s.w[s.cur] < |d.a| && s.cur in d.o0
    requires s.port < |d.a[s.cur].ports| == |d.a[s.w[s.cur]].ports| && y in s'.born
    requires d.a[s.cur].ports[s.port] == None && d.a[s.w[s.cur]].ports[s.port] == Some(y)
    requires s'.w == s.w
    ensures PortRecorded(d, s', s.cur, s.port)
  {
    hide Handled;
  }

  lemma BelowBorn(d: Diff, s': Progress, y: nat, i: nat)
    requires ValidDiff(d) && y in d.o1 && d.o1[y].Hung? && i in d.o1 && Under(d.o1, y, i)
    requires i !in s'.v && Below(d.o1, y) <= s'.born
    requires d.o1[y].peer in s'.v && Handled(s', s'.v[d.o1[y].peer], d.o1[y].slot)
    requires Leave(d.a, s'.v[d.o1[y].peer], d.o1[y].slot).None?
    ensures BornBelow(d, s', i)
  {
    if i != y {
      assert d.o1[i].Hung? && Under(d.o1, y, d.o1[i].peer);
      assert d.o1[i].peer in Below(d.o1, y);
    }
  }
}
