/** Port-labelled bus trees, the order in which their PHYs report themselves, and the
    shift-reduce reading of such a report.

    A tree is a PHY's report plus the trees attached to its child ports in ascending
    port order.  The bus sends the reports in post-order, so the reader keeps a stack
    of finished subtrees.
 */
module BusTree {
  import opened Basics
  import opened SelfIdPacket

  datatype Tree = Tree(rec: SelfId, kids: seq<Tree>)

  // ---- counting port statuses ----------------------------------------------

  function Count(ports: seq<Status>, s: Status): (n: nat)
    ensures n <= |ports|
  {
    if ports == [] then 0 else Count(ports[..|ports| - 1], s) + (if ports[|ports| - 1] == s then 1 else 0)
  }

  lemma {:induction false} CountPrefix(ports: seq<Status>, k: nat, s: Status)
    requires k <= |ports|
    ensures Count(ports[..k], s) <= Count(ports, s)
    ensures k < |ports| && ports[k] == s ==> Count(ports[..k], s) < Count(ports, s)
  {
    if k < |ports| {
      var front := ports[..|ports| - 1];
      CountPrefix(front, if k < |front| then k else |front|, s);
      assert front[..k] == ports[..k];
    } else {
      assert ports[..k] == ports;
    }
  }

  lemma CountStep(ports: seq<Status>, k: nat, s: Status)
    requires k < |ports|
    ensures Count(ports[..k + 1], s) == Count(ports[..k], s) + (if ports[k] == s then 1 else 0)
  {
    assert ports[..k + 1][..k] == ports[..k];
  }

  /** Ports the PHY implements at all. */
  function Total(r: SelfId): (n: nat)
    ensures n <= |r.ports|
  {
    |r.ports| - Count(r.ports, Absent)
  }

  /** The statuses that build_tree looks at when it links the node. */
  function Visible(r: SelfId): seq<Status> { r.ports[..Total(r)] }

  function Children(r: SelfId): nat { Count(r.ports, Child) }

  /** Children that get linked; fewer than Children(r) only if an absent port precedes them. */
  function Linked(r: SelfId): (n: nat)
    ensures n <= Children(r)
  {
    CountPrefix(r.ports, Total(r), Child);
    Count(Visible(r), Child)
  }

  function Parents(r: SelfId): nat { Count(Visible(r), Parent) }

  /** Index of the last parent port, if any. */
  function UpPort(ports: seq<Status>): (p: Option<nat>)
    ensures p.Some? ==> p.value < |ports| && ports[p.value] == Parent
    ensures p.None? <==> Count(ports, Parent) == 0
  {
    if ports == [] then None
    else if ports[|ports| - 1] == Parent then Some(|ports| - 1) else UpPort(ports[..|ports| - 1])
  }

  // ---- shape of trees and forests ------------------------------------------

  function Size(t: Tree): (n: nat)
    ensures n > 0
  {
    1 + SizeF(t.kids)
  }

  function SizeF(ts: seq<Tree>): nat {
    if ts == [] then 0 else Size(ts[0]) + SizeF(ts[1..])
  }

  lemma {:induction false} SizeFAppend(a: seq<Tree>, b: seq<Tree>)
    ensures SizeF(a + b) == SizeF(a) + SizeF(b)
  {
    if a == [] {
      assert a + b == b;
    } else {
      SizeFAppend(a[1..], b);
      assert (a + b)[1..] == a[1..] + b;
    }
  }

  /** Post-order: the reports of the children, then the node's own. */
  function Stream(t: Tree): (s: seq<SelfId>)
    ensures |s| == Size(t)
  {
    StreamF(t.kids) + [t.rec]
  }

  function StreamF(ts: seq<Tree>): (s: seq<SelfId>)
    ensures |s| == SizeF(ts)
  {
    if ts == [] then [] else Stream(ts[0]) + StreamF(ts[1..])
  }

  lemma {:induction false} StreamFAppend(a: seq<Tree>, b: seq<Tree>)
    ensures StreamF(a + b) == StreamF(a) + StreamF(b)
  {
    hide Stream;
    if a == [] {
      assert a + b == b;
    } else {
      StreamFAppend(a[1..], b);
      assert (a + b)[1..] == a[1..] + b && (a + b)[0] == a[0];
      var s0, s1, s2 := Stream(a[0]), StreamF(a[1..]), StreamF(b);
      assert s0 + (s1 + s2) == s0 + s1 + s2;
    }
  }

  /** A subtree hanging below some node, with PHY ids counted from `base` in post-order. */
  predicate Hanging(t: Tree, base: nat) {
    && HangingF(t.kids, base)
    && t.rec.phy == base + SizeF(t.kids)
    && |t.kids| == Children(t.rec)
    && Parents(t.rec) == 1
  }

  predicate HangingF(ts: seq<Tree>, base: nat) {
    ts != [] ==> Hanging(ts[0], base) && HangingF(ts[1..], base + Size(ts[0]))
  }

  /** A whole bus: like a hanging tree, but the root has no parent port. */
  predicate IsBus(t: Tree) {
    && HangingF(t.kids, 0)
    && t.rec.phy == SizeF(t.kids)
    && |t.kids| == Children(t.rec)
    && Parents(t.rec) == 0
  }

  lemma {:induction false} HangingFAppend(a: seq<Tree>, b: seq<Tree>, base: nat)
    ensures HangingF(a + b, base) <==> HangingF(a, base) && HangingF(b, base + SizeF(a))
  {
    if a == [] {
      assert a + b == b;
    } else {
      HangingFAppend(a[1..], b, base + Size(a[0]));
      assert (a + b)[1..] == a[1..] + b;
    }
  }

  // ---- reading a report stream ---------------------------------------------

  /** One round of build_tree's loop on the stack of subtrees.  `n` reports were read
      before this one; `last` says that no quadlets remain. */
  function Shift(forest: seq<Tree>, r: SelfId, n: nat, last: bool): Option<seq<Tree>> {
    var c := Children(r);
    if r.phy != n || c > |forest| || Parents(r) != (if last then 0 else 1) then None
    else Some(forest[..|forest| - c] + [Tree(r, forest[|forest| - c..])])
  }

  function Parse(rs: seq<SelfId>, n: nat, forest: seq<Tree>): Option<seq<Tree>> {
    if rs == [] then Some(forest) else
    var f := Shift(forest, rs[0], n, |rs| == 1);
    if f.None? then None else Parse(rs[1..], n + 1, f.value)
  }

  /** Reading a hanging tree shifts exactly that tree onto the stack. */
  lemma {:induction false} ParseTree(t: Tree, rest: seq<SelfId>, n: nat, forest: seq<Tree>)
    requires Hanging(t, n) && rest != []
    ensures Parse(Stream(t) + rest, n, forest) == Parse(rest, n + Size(t), forest + [t])
    decreases t, 1
  {
    ParseForest(t.kids, [t.rec] + rest, n, forest);
    assert Stream(t) + rest == StreamF(t.kids) + ([t.rec] + rest);
    assert ([t.rec] + rest)[1..] == rest;
    ShiftTop(forest, t, n + SizeF(t.kids), false);
  }

  lemma ShiftTop(forest: seq<Tree>, t: Tree, n: nat, last: bool)
    requires t.rec.phy == n && |t.kids| == Children(t.rec) && Parents(t.rec) == (if last then 0 else 1)
    ensures Shift(forest + t.kids, t.rec, n, last) == Some(forest + [t])
  {
    var f := forest + t.kids;
    assert f[|f| - |t.kids|..] == t.kids && f[..|f| - |t.kids|] == forest;
    assert t == Tree(t.rec, t.kids);
  }

  lemma {:induction false} ParseForest(ts: seq<Tree>, rest: seq<SelfId>, n: nat, forest: seq<Tree>)
    requires HangingF(ts, n) && rest != []
    ensures Parse(StreamF(ts) + rest, n, forest) == Parse(rest, n + SizeF(ts), forest + ts)
    decreases ts, 0
  {
    hide Parse, Stream, Hanging, Size;
    if ts == [] {
      assert StreamF(ts) + rest == rest && forest + ts == forest;
    } else {
      assert StreamF(ts) + rest == Stream(ts[0]) + (StreamF(ts[1..]) + rest);
      ParseTree(ts[0], StreamF(ts[1..]) + rest, n, forest);
      ParseForest(ts[1..], rest, n + Size(ts[0]), forest + [ts[0]]);
      assert forest + [ts[0]] + ts[1..] == forest + ts;
    }
  }

  /** The last report closes its tree and ends the reading. */
  lemma ParseLast(t: Tree, n: nat, forest: seq<Tree>)
    requires HangingF(t.kids, n) && t.rec.phy == n + SizeF(t.kids)
    requires |t.kids| == Children(t.rec) && Parents(t.rec) == 0
    ensures Parse(Stream(t), n, forest) == Some(forest + [t])
  {
    hide HangingF, Shift, SizeF, Children, Parents, StreamF;
    var last := [t.rec];
    assert last[1..] == [];
    ParseForest(t.kids, last, n, forest);
    ShiftTop(forest, t, n + SizeF(t.kids), true);
  }

  /** Completeness: every bus tree is read back as itself. */
  lemma ParseBus(t: Tree)
    requires IsBus(t)
    ensures Parse(Stream(t), 0, []) == Some([t])
  {
    hide Parse, Stream, HangingF;
    var forest: seq<Tree> := [];
    ParseLast(t, 0, forest);
    assert forest + [t] == [t];
  }

  lemma ShiftSound(forest: seq<Tree>, r: SelfId, n: nat, last: bool)
    requires HangingF(forest, 0) && SizeF(forest) == n && Shift(forest, r, n, last).Some?
    ensures var f := Shift(forest, r, n, last).value;
      && f != [] && SizeF(f) == n + 1 && StreamF(f) == StreamF(forest) + [r]
      && (if last then RootedLast(f) else HangingF(f, 0))
  {
    hide HangingF, SizeF, StreamF, Parents, Children;
    var c := Children(r);
    var low, kids := forest[..|forest| - c], forest[|forest| - c..];
    var t := Tree(r, kids);
    var f := low + [t];
    assert low + kids == forest && f[..|f| - 1] == low;
    ShiftShape(low, kids, t);
    ShiftStream(low, kids, t);
  }

  lemma ShiftShape(low: seq<Tree>, kids: seq<Tree>, t: Tree)
    requires t.kids == kids
    ensures SizeF(low + [t]) == SizeF(low + kids) + 1
    ensures (HangingF(low + kids, 0) && |kids| == Children(t.rec) && Parents(t.rec) == 1
             && t.rec.phy == SizeF(low + kids)) ==> HangingF(low + [t], 0)
  {
    hide SizeF, HangingF, Children, Parents;
    SizeFAppend(low, kids);
    SizeFAppend(low, [t]);
    HangingFAppend(low, kids, 0);
    HangingFAppend(low, [t], 0);
    SingleTree(t, SizeF(low));
  }

  lemma SingleTree(t: Tree, base: nat)
    ensures SizeF([t]) == Size(t)
    ensures HangingF([t], base) <==> Hanging(t, base)
  {
    assert [t][1..] == [];
  }

  lemma ShiftStream(low: seq<Tree>, kids: seq<Tree>, t: Tree)
    requires t.kids == kids
    ensures StreamF(low + [t]) == StreamF(low + kids) + [t.rec]
  {
    StreamFAppend(low, kids);
    StreamFAppend(low, [t]);
    assert StreamF([t]) == Stream(t) + StreamF([t][1..]) == StreamF(kids) + [t.rec];
    var a, b := StreamF(low), StreamF(kids);
    assert a + (b + [t.rec]) == a + b + [t.rec];
  }

  /** Soundness: whatever is accepted is the report of the forest that was built.  All its
      trees but the last are hanging trees, the last one is rooted. */
  lemma {:induction false} ParseSound(rs: seq<SelfId>, n: nat, forest: seq<Tree>)
    requires HangingF(forest, 0) && SizeF(forest) == n && rs != []
    ensures Parse(rs, n, forest).Some? ==>
      var f := Parse(rs, n, forest).value;
      f != [] && StreamF(f) == StreamF(forest) + rs && RootedLast(f)
    decreases |rs|
  {
    hide Shift, HangingF, StreamF, SizeF, RootedLast;
    var f := Shift(forest, rs[0], n, |rs| == 1);
    if f.Some? {
      ShiftSound(forest, rs[0], n, |rs| == 1);
      if |rs| == 1 {
        assert rs == [rs[0]] && rs[1..] == [];
      } else {
        ParseSound(rs[1..], n + 1, f.value);
        assert StreamF(forest) + [rs[0]] + rs[1..] == StreamF(forest) + rs;
      }
    }
  }

  predicate RootedLast(f: seq<Tree>)
    requires f != []
  {
    var low, t := f[..|f| - 1], f[|f| - 1];
    && HangingF(low + t.kids, 0)
    && |t.kids| == Children(t.rec) && Parents(t.rec) == 0
    && t.rec.phy == SizeF(low + t.kids)
  }

  /** Child ports of all reports together. */
  function ChildTotal(rs: seq<SelfId>): nat {
    if rs == [] then 0 else Children(rs[0]) + ChildTotal(rs[1..])
  }

  /** Every report adds a tree and every child port takes one away. */
  lemma {:induction false} ParseCount(rs: seq<SelfId>, n: nat, forest: seq<Tree>)
    requires Parse(rs, n, forest).Some?
    ensures |Parse(rs, n, forest).value| + ChildTotal(rs) == |forest| + |rs|
    decreases |rs|
  {
    hide Children, Parents;
    if rs != [] {
      ParseCount(rs[1..], n + 1, Shift(forest, rs[0], n, |rs| == 1).value);
    }
  }

  /** An accepted stream is one tree exactly if the child ports account for every PHY but one. */
  lemma OneTreeIff(rs: seq<SelfId>)
    requires Parse(rs, 0, []).Some?
    ensures |Parse(rs, 0, []).value| == 1 <==> ChildTotal(rs) == |rs| - 1
  {
    ParseCount(rs, 0, []);
  }

  /** A stream is accepted with everything on one tree exactly if it is the report of a bus, and
      that can be told from the number of child ports. */
  lemma AcceptedIffBus(rs: seq<SelfId>)
    requires rs != []
    ensures (exists t :: Parse(rs, 0, []) == Some([t])) <==> (exists t :: IsBus(t) && Stream(t) == rs)
    ensures (exists t :: IsBus(t) && Stream(t) == rs) <==> Parse(rs, 0, []).Some? && ChildTotal(rs) == |rs| - 1
  {
    if Parse(rs, 0, []).Some? {
      OneTreeIff(rs);
      var f := Parse(rs, 0, []).value;
      assert |f| == 1 ==> f == [f[0]];
    }
    if t: Tree :| Parse(rs, 0, []) == Some([t]) {
      OneTree(rs, t);
    }
    if t: Tree :| IsBus(t) && Stream(t) == rs {
      ParseBus(t);
    }
  }

  lemma OneTree(rs: seq<SelfId>, t: Tree)
    requires rs != [] && Parse(rs, 0, []) == Some([t])
    ensures IsBus(t) && Stream(t) == rs
  {
    ParseSound(rs, 0, []);
    assert [t][..0] + t.kids == t.kids;
    assert StreamF([t]) == Stream(t) && StreamF([]) + rs == rs;
  }
}
