/** The store of a freshly built bus is a tree: its orientation towards the bus root. */
module BusOrientation {
  import opened Basics
  import opened SelfIdPacket
  import opened BusTree
  import opened HopCount
  import opened NodeStore
  import opened Orientation

  /** Below the root: one parent port, and every child port was linked. */
  predicate Proper(t: Tree) {
    && Parents(t.rec) == 1 && Linked(t.rec) == |t.kids|
    && forall i | 0 <= i < |t.kids| :: Proper(t.kids[i])
  }

  predicate ProperF(ts: seq<Tree>) { forall i | 0 <= i < |ts| :: Proper(ts[i]) }

  predicate ProperBus(t: Tree) { Parents(t.rec) == 0 && Linked(t.rec) == |t.kids| && ProperF(t.kids) }

  /** Absent ports come last. */
  predicate Trailing(ports: seq<Status>) {
    forall i, j :: 0 <= i < j < |ports| && ports[i] == Absent ==> ports[j] == Absent
  }

  lemma {:induction false} CountNone(ports: seq<Status>, s: Status)
    requires forall i :: 0 <= i < |ports| ==> ports[i] != s
    ensures Count(ports, s) == 0
  {
    if ports != [] {
      CountNone(ports[..|ports| - 1], s);
    }
  }

  lemma {:induction false} TrailingLinksAll(ports: seq<Status>)
    requires Trailing(ports)
    ensures Count(ports[..|ports| - Count(ports, Absent)], Child) == Count(ports, Child)
  {
    if ports != [] {
      var front := ports[..|ports| - 1];
      if ports[|ports| - 1] == Absent {
        TrailingLinksAll(front);
        assert front[..|front| - Count(front, Absent)] == ports[..|ports| - Count(ports, Absent)];
      } else {
        CountNone(ports, Absent);
        assert ports[..|ports|] == ports;
      }
    }
  }

  /** The k-th child port. */
  function ChildPort(vis: seq<Status>, k: nat): (p: nat)
    requires k < Count(vis, Child)
    ensures p < |vis| && vis[p] == Child && Count(vis[..p], Child) == k
  {
    var n := |vis| - 1;
    if vis[n] == Child && Count(vis[..n], Child) == k then n
    else
      var p := ChildPort(vis[..n], k);
      assert vis[..n][..p] == vis[..p];
      p
  }

  lemma CountGrows(vis: seq<Status>, p: nat, q: nat)
    requires p < q <= |vis| && vis[p] == Child
    ensures Count(vis[..p], Child) < Count(vis[..q], Child)
  {
    CountPrefix(vis[..q], p, Child);
    assert vis[..q][..p] == vis[..p];
  }

  lemma ChildPortUnique(vis: seq<Status>, p: nat)
    requires p < |vis| && vis[p] == Child
    ensures Count(vis[..p], Child) < Count(vis, Child) && ChildPort(vis, Count(vis[..p], Child)) == p
  {
    CountPrefix(vis, p, Child);
    var q := ChildPort(vis, Count(vis[..p], Child));
    if q < p {
      CountGrows(vis, q, p);
    } else if p < q {
      CountGrows(vis, p, q);
    }
  }

  /** How the root of `t`, at index `at`, hangs below `owner`. */
  function HangOf(t: Tree, at: nat, owner: nat, slot: nat, top: nat): Hang {
    var up := UpPort(Visible(t.rec));
    Hung(if up.Some? then up.value else 0, owner, slot, if at <= top then top - at else 0)
  }

  /** Orientation of all nodes of a row of children of `owner`, children counted from `k`. */
  function RowHangs(ts: seq<Tree>, base: nat, owner: nat, vis: seq<Status>, k: nat, top: nat): (s: seq<Hang>)
    requires ProperF(ts) && k + |ts| <= Count(vis, Child) && base + SizeF(ts) <= owner <= top
    ensures |s| == SizeF(ts) && forall h | h in s :: h.Hung?
  {
    if ts == [] then [] else
    var at := base + Size(ts[0]) - 1;
    RowHangs(ts[0].kids, base, at, Visible(ts[0].rec), 0, top)
    + [HangOf(ts[0], at, owner, ChildPort(vis, k), top)]
    + RowHangs(ts[1..], base + Size(ts[0]), owner, vis, k + 1, top)
  }

  /** `s` sits in the store from `base` on. */
  predicate Seg<T(==)>(a: seq<T>, base: nat, s: seq<T>) {
    base + |s| <= |a| && forall i :: 0 <= i < |s| ==> a[base + i] == s[i]
  }

  predicate OSeg(o: Orient, base: nat, s: seq<Hang>) {
    forall i :: base <= i < base + |s| ==> i in o && o[i] == s[i - base]
  }

  lemma OSegSplit(o: Orient, base: nat, x: seq<Hang>, h: Hang, z: seq<Hang>)
    requires OSeg(o, base, x + [h] + z)
    ensures OSeg(o, base, x) && base + |x| in o && o[base + |x|] == h && OSeg(o, base + |x| + 1, z)
  {
    var s := x + [h] + z;
    forall i | base <= i < base + |x| ensures i in o && o[i] == x[i - base] {
      assert s[i - base] == x[i - base];
    }
    assert s[|x|] == h;
    forall i | base + |x| + 1 <= i < base + |x| + 1 + |z| ensures i in o && o[i] == z[i - (base + |x| + 1)] {
      assert s[i - base] == z[i - base - |x| - 1];
    }
  }

  lemma SegSplit<T>(a: seq<T>, base: nat, x: seq<T>, h: T, z: seq<T>)
    requires Seg(a, base, x + [h] + z)
    ensures Seg(a, base, x) && base + |x| < |a| && a[base + |x|] == h && Seg(a, base + |x| + 1, z)
  {
    var s := x + [h] + z;
    forall i | 0 <= i < |x| ensures a[base + i] == x[i] {
      assert s[i] == x[i];
    }
    assert s[|x|] == h;
    forall i | 0 <= i < |z| ensures a[base + |x| + 1 + i] == z[i] {
      assert s[|x| + 1 + i] == z[i];
    }
  }

  /** `owner` points to root `r` of its child number `k`, with a port that is not its parent port. */
  ghost predicate OwnsAt(a: seq<Node>, o: Orient, r: nat, owner: nat, vis: seq<Status>, k: nat)
    requires owner < |a| && owner in o
  {
    k < Count(vis, Child) && var p := ChildPort(vis, k);
      p < |a[owner].ports| && a[owner].ports[p] == Some(r) && !IsUp(o[owner], p)
  }

  ghost predicate Owns(a: seq<Node>, o: Orient, ts: seq<Tree>, base: nat, owner: nat, vis: seq<Status>, k: nat, top: nat) {
    && k + |ts| <= Count(vis, Child) && owner <= top
    && owner < |a| && owner in o && Level(o[owner]) == top - owner
    && forall j :: 0 <= j < |ts| ==> OwnsAt(a, o, Roots(ts, base)[j], owner, vis, k + j)
  }

  ghost predicate HungAt(o: Orient, t: Tree, r: nat, owner: nat, vis: seq<Status>, k: nat, top: nat) {
    k < Count(vis, Child) && r in o && o[r] == HangOf(t, r, owner, ChildPort(vis, k), top)
  }

  ghost predicate RowHung(o: Orient, ts: seq<Tree>, base: nat, owner: nat, vis: seq<Status>, k: nat, top: nat) {
    forall j :: 0 <= j < |ts| ==> HungAt(o, ts[j], Roots(ts, base)[j], owner, vis, k + j, top)
  }

  lemma {:induction false} RowOk(a: seq<Node>, o: Orient, ts: seq<Tree>, base: nat, color: nat, owner: nat,
                                 vis: seq<Status>, k: nat, top: nat)
    requires ProperF(ts) && WiredF(ts) && k + |ts| <= Count(vis, Child) && base + SizeF(ts) <= owner <= top
    requires Owns(a, o, ts, base, owner, vis, k, top)
    requires Seg(a, base, FlatF(ts, base, color, owner, |ts|))
    requires OSeg(o, base, RowHangs(ts, base, owner, vis, k, top))
    ensures forall i | base <= i < base + SizeF(ts) :: i in o && i < |a| && NodeOk(a, o, i)
    ensures RowHung(o, ts, base, owner, vis, k, top)
    decreases ts
  {
    hide *;
    RowShape(o, ts, base, owner, vis, k, top);
    if ts != [] {
      var t, rest := ts[0], ts[1..];
      var at := base + SizeF(t.kids);
      RowSplit(a, o, ts, base, color, owner, vis, k, top);
      OwnsKids(a, o, t, base, color, owner, ChildPort(vis, k), top);
      RowOk(a, o, t.kids, base, color, at, Visible(t.rec), 0, top);
      OwnsRest(a, o, ts, base, owner, vis, k, top);
      RootOk(a, o, t, base, color, owner, ChildPort(vis, k), top);
      RowOk(a, o, rest, at + 1, color, owner, vis, k + 1, top);
      RowHungJoin(o, ts, base, owner, vis, k, top);
    }
  }

  lemma RowShape(o: Orient, ts: seq<Tree>, base: nat, owner: nat, vis: seq<Status>, k: nat, top: nat)
    requires ProperF(ts) && WiredF(ts)
    ensures ts == [] ==> SizeF(ts) == 0 && RowHung(o, ts, base, owner, vis, k, top)
    ensures ts != [] ==> var t := ts[0];
      && SizeF(ts) == SizeF(t.kids) + 1 + SizeF(ts[1..]) && Size(t) == SizeF(t.kids) + 1
      && Proper(t) && ProperF(t.kids) && ProperF(ts[1..]) && Wired(t) && WiredF(t.kids) && WiredF(ts[1..])
  {
  }

  lemma RowSplit(a: seq<Node>, o: Orient, ts: seq<Tree>, base: nat, color: nat, owner: nat,
                 vis: seq<Status>, k: nat, top: nat)
    requires ts != [] && ProperF(ts) && WiredF(ts) && k + |ts| <= Count(vis, Child) && base + SizeF(ts) <= owner <= top
    requires Seg(a, base, FlatF(ts, base, color, owner, |ts|))
    requires OSeg(o, base, RowHangs(ts, base, owner, vis, k, top))
    ensures var t, rest, at := ts[0], ts[1..], base + SizeF(ts[0].kids);
      && at < |a| && a[at] == RootNode(t, base, color, Some(owner))
      && at in o && o[at] == HangOf(t, at, owner, ChildPort(vis, k), top)
      && Seg(a, base, FlatF(t.kids, base, color, at, |t.kids|))
      && OSeg(o, base, RowHangs(t.kids, base, at, Visible(t.rec), 0, top))
      && Seg(a, at + 1, FlatF(rest, at + 1, color, owner, |rest|))
      && OSeg(o, at + 1, RowHangs(rest, at + 1, owner, vis, k + 1, top))
  {
    hide RootNode, HangOf, Seg, OSeg, ChildPort, Visible, Parents;
    var t, rest, at := ts[0], ts[1..], base + SizeF(ts[0].kids);
    SegSplit(a, base, FlatF(t.kids, base, color, at, |t.kids|), RootNode(t, base, color, Some(owner)),
             FlatF(rest, at + 1, color, owner, |rest|));
    OSegSplit(o, base, RowHangs(t.kids, base, at, Visible(t.rec), 0, top),
              HangOf(t, at, owner, ChildPort(vis, k), top), RowHangs(rest, at + 1, owner, vis, k + 1, top));
  }

  lemma OwnsKids(a: seq<Node>, o: Orient, t: Tree, base: nat, color: nat, owner: nat, slot: nat, top: nat)
    requires Proper(t) && Wired(t)
    requires var at := base + SizeF(t.kids);
      at < |a| && a[at] == RootNode(t, base, color, Some(owner)) && at <= top
      && at in o && o[at] == HangOf(t, at, owner, slot, top)
    ensures |t.kids| <= Count(Visible(t.rec), Child)
    ensures Owns(a, o, t.kids, base, base + SizeF(t.kids), Visible(t.rec), 0, top)
  {
    hide Depth4, Hops4, Roots;
    var at, vis := base + SizeF(t.kids), Visible(t.rec);
    var roots := Roots(t.kids, base);
    forall j | 0 <= j < |t.kids| ensures OwnsAt(a, o, roots[j], at, vis, 0 + j) {
      var p := ChildPort(vis, j);
      assert a[at].ports[p] == LinkAt(vis, roots, Some(owner), p);
      assert vis[o[at].port] == Parent;
    }
  }

  lemma RootOk(a: seq<Node>, o: Orient, t: Tree, base: nat, color: nat, owner: nat, slot: nat, top: nat)
    requires Proper(t) && Wired(t)
    requires var at := base + SizeF(t.kids);
      && at < |a| && a[at] == RootNode(t, base, color, Some(owner)) && at < owner <= top
      && at in o && o[at] == HangOf(t, at, owner, slot, top)
      && owner in o && owner < |a| && Level(o[owner]) == top - owner
      && slot < |a[owner].ports| && a[owner].ports[slot] == Some(at) && !IsUp(o[owner], slot)
      && RowHung(o, t.kids, base, at, Visible(t.rec), 0, top)
    ensures NodeOk(a, o, base + SizeF(t.kids))
  {
    hide Depth4, Hops4, Roots;
    var at, vis := base + SizeF(t.kids), Visible(t.rec);
    var roots := Roots(t.kids, base);
    assert a[at].ports[o[at].port] == LinkAt(vis, roots, Some(owner), o[at].port);
    assert UpOk(a, o, at);
    hide UpOk, ChildPort;
    forall p | 0 <= p < |a[at].ports| ensures DownOk(a, o, at, p) {
      assert a[at].ports[p] == LinkAt(vis, roots, Some(owner), p);
      if vis[p] == Child {
        ChildPortUnique(vis, p);
        var j := Count(vis[..p], Child);
        assert HungAt(o, t.kids[j], roots[j], at, vis, 0 + j, top);
      } else if vis[p] == Parent && p != o[at].port {
        OnlyOneParent(vis, if p < o[at].port then p else o[at].port, if p < o[at].port then o[at].port else p);
      }
    }
  }

  lemma OwnsRest(a: seq<Node>, o: Orient, ts: seq<Tree>, base: nat, owner: nat, vis: seq<Status>, k: nat, top: nat)
    requires ts != [] && Owns(a, o, ts, base, owner, vis, k, top)
    ensures Owns(a, o, ts[1..], base + Size(ts[0]), owner, vis, k + 1, top)
    ensures owner < |a| && owner in o && Level(o[owner]) == top - owner
    ensures ChildPort(vis, k) < |a[owner].ports| && !IsUp(o[owner], ChildPort(vis, k))
    ensures a[owner].ports[ChildPort(vis, k)] == Some(base + SizeF(ts[0].kids))
  {
    hide ChildPort, SizeF, Roots;
    RootsCons(ts, base);
    var rest, next := ts[1..], base + Size(ts[0]);
    assert Roots(ts, base)[0] == next - 1;
    assert OwnsAt(a, o, Roots(ts, base)[0], owner, vis, k + 0);
    forall j | 0 <= j < |rest| ensures OwnsAt(a, o, Roots(rest, next)[j], owner, vis, k + 1 + j) {
      assert OwnsAt(a, o, Roots(ts, base)[j + 1], owner, vis, k + (j + 1));
      assert Roots(ts, base)[j + 1] == Roots(rest, next)[j];
    }
  }

  lemma RowHungJoin(o: Orient, ts: seq<Tree>, base: nat, owner: nat, vis: seq<Status>, k: nat, top: nat)
    requires ts != [] && k + |ts| <= Count(vis, Child)
    requires var at := base + SizeF(ts[0].kids);
      && at in o && o[at] == HangOf(ts[0], at, owner, ChildPort(vis, k), top)
      && RowHung(o, ts[1..], at + 1, owner, vis, k + 1, top)
    ensures RowHung(o, ts, base, owner, vis, k, top)
  {
    hide ChildPort, HangOf, SizeF, Roots;
    RootsCons(ts, base);
    var rest, next := ts[1..], base + Size(ts[0]);
    assert Roots(ts, base)[0] == next - 1;
    forall j | 0 <= j < |ts|
      ensures HungAt(o, ts[j], Roots(ts, base)[j], owner, vis, k + j, top)
    {
      if j > 0 {
        assert Roots(ts, base)[j] == Roots(rest, next)[j - 1] && rest[j - 1] == ts[j];
        assert HungAt(o, rest[j - 1], Roots(rest, next)[j - 1], owner, vis, k + 1 + (j - 1), top);
      }
    }
  }

  // ---- the whole bus -------------------------------------------------------

  /** Seen from the bus root. */
  function BusHangs(t: Tree, base: nat): (s: seq<Hang>)
    requires ProperBus(t)
    ensures |s| == Size(t)
  {
    RowHangs(t.kids, base, base + SizeF(t.kids), Visible(t.rec), 0, base + SizeF(t.kids)) + [Top]
  }

  function BusOrient(t: Tree, base: nat): Orient
    requires ProperBus(t)
  {
    map i: nat | base <= i < base + Size(t) :: BusHangAt(t, base, i)
  }

  function BusHangAt(t: Tree, base: nat, i: nat): Hang
    requires ProperBus(t) && base <= i < base + Size(t)
  {
    BusHangs(t, base)[i - base]
  }

  lemma BusHangSplit(t: Tree, base: nat)
    requires ProperBus(t)
    ensures var top, o := base + SizeF(t.kids), BusOrient(t, base);
      && ProperF(t.kids) && |t.kids| <= Count(Visible(t.rec), Child)
      && OSeg(o, base, RowHangs(t.kids, base, top, Visible(t.rec), 0, top)) && top in o && o[top] == Top
      && forall i | i in o :: base <= i <= top
  {
    hide RowHangs;
    var top, o := base + SizeF(t.kids), BusOrient(t, base);
    var hangs := RowHangs(t.kids, base, top, Visible(t.rec), 0, top);
    forall i | base <= i < base + |hangs| ensures i in o && o[i] == hangs[i - base] {
      assert BusHangAt(t, base, i) == hangs[i - base];
    }
    assert BusHangAt(t, base, top) == Top;
  }

  lemma BusFlatSplit(a: seq<Node>, t: Tree, base: nat, color: nat)
    requires ProperBus(t) && WiredAll(t) && Seg(a, base, Flat(t, base, color, None))
    ensures var top := base + SizeF(t.kids);
      && WiredF(t.kids) && Wired(t) && top < |a| && a[top] == RootNode(t, base, color, None)
      && Seg(a, base, FlatF(t.kids, base, color, top, |t.kids|))
  {
    hide RootNode, FlatF, Linked;
    var front := FlatF(t.kids, base, color, base + SizeF(t.kids), |t.kids|);
    assert front + [RootNode(t, base, color, None)] + [] == Flat(t, base, color, None);
    SegSplit(a, base, front, RootNode(t, base, color, None), []);
  }

  lemma BusOriented(a: seq<Node>, t: Tree, base: nat, color: nat)
    requires ProperBus(t) && WiredAll(t) && Seg(a, base, Flat(t, base, color, None))
    ensures Oriented(a, BusOrient(t, base), base + Size(t) - 1)
  {
    hide NodeOk, RootNode, RowHangs, FlatF, WiredAll, ProperBus, Visible, Linked, Flat, BusOrient;
    BusHangSplit(t, base);
    BusFlatSplit(a, t, base, color);
    var top, vis, o := base + SizeF(t.kids), Visible(t.rec), BusOrient(t, base);
    var hangs := RowHangs(t.kids, base, top, vis, 0, top);
    TopOwns(a, o, t, base, color);
    RowOk(a, o, t.kids, base, color, top, vis, 0, top);
    TopOk(a, o, t, base, color);
    forall i | i in o ensures o[i].Top? <==> i == top {
      if i != top {
        assert o[i] == hangs[i - base];
      }
    }
  }

  lemma TopOwns(a: seq<Node>, o: Orient, t: Tree, base: nat, color: nat)
    requires ProperBus(t) && Wired(t)
    requires var at := base + SizeF(t.kids);
      at < |a| && a[at] == RootNode(t, base, color, None) && at in o && o[at] == Top
    ensures |t.kids| <= Count(Visible(t.rec), Child)
    ensures var at := base + SizeF(t.kids); Owns(a, o, t.kids, base, at, Visible(t.rec), 0, at)
  {
    hide Depth4, Hops4, Roots;
    var at, vis := base + SizeF(t.kids), Visible(t.rec);
    var roots := Roots(t.kids, base);
    forall j | 0 <= j < |t.kids| ensures OwnsAt(a, o, roots[j], at, vis, 0 + j) {
      assert a[at].ports[ChildPort(vis, j)] == LinkAt(vis, roots, None, ChildPort(vis, j));
    }
  }

  lemma TopOk(a: seq<Node>, o: Orient, t: Tree, base: nat, color: nat)
    requires ProperBus(t) && Wired(t)
    requires var at := base + SizeF(t.kids);
      && at < |a| && a[at] == RootNode(t, base, color, None) && at in o && o[at] == Top
      && RowHung(o, t.kids, base, at, Visible(t.rec), 0, at)
    ensures NodeOk(a, o, base + SizeF(t.kids))
  {
    hide Depth4, Hops4, Roots;
    var at, vis := base + SizeF(t.kids), Visible(t.rec);
    var roots := Roots(t.kids, base);
    forall p | 0 <= p < |a[at].ports| ensures DownOk(a, o, at, p) {
      assert a[at].ports[p] == LinkAt(vis, roots, None, p);
      if vis[p] == Child {
        ChildPortUnique(vis, p);
        var j := Count(vis[..p], Child);
        assert HungAt(o, t.kids[j], roots[j], at, vis, 0 + j, at);
      }
    }
  }

  /** No child port lies behind the ports that build_tree looks at. */
  predicate LinksAll(r: SelfId) { Linked(r) == Children(r) }

  predicate LinksAllF(rs: seq<SelfId>) { forall r | r in rs :: LinksAll(r) }

  lemma TrailingLinks(r: SelfId)
    requires Trailing(r.ports)
    ensures LinksAll(r)
  {
    TrailingLinksAll(r.ports);
  }

  lemma StreamHead(ts: seq<Tree>)
    requires ts != []
    ensures LinksAllF(StreamF(ts)) <==>
      LinksAllF(StreamF(ts[0].kids)) && LinksAll(ts[0].rec) && LinksAllF(StreamF(ts[1..]))
  {
    hide LinksAll;
    var a, b, c := StreamF(ts[0].kids), ts[0].rec, StreamF(ts[1..]);
    assert StreamF(ts) == a + [b] + c;
    assert forall r :: r in a + [b] + c <==> r in a || r == b || r in c;
  }

  /** Whether all children of a hanging row get linked shows in the reports. */
  lemma {:induction false} HangingProper(ts: seq<Tree>, hang: nat)
    requires HangingF(ts, hang)
    ensures ProperF(ts) <==> LinksAllF(StreamF(ts))
    decreases ts
  {
    hide Parents, Linked, Children;
    if ts != [] {
      HangingProper(ts[0].kids, hang);
      HangingProper(ts[1..], hang + Size(ts[0]));
      StreamHead(ts);
      assert Proper(ts[0]) <==> LinksAll(ts[0].rec) && ProperF(ts[0].kids);
      assert ProperF(ts) <==> Proper(ts[0]) && ProperF(ts[1..]) by {
        ProperCons(ts);
      }
    } else {
      assert StreamF(ts) == [];
    }
  }

  lemma ProperCons(ts: seq<Tree>)
    requires ts != []
    ensures ProperF(ts) <==> Proper(ts[0]) && ProperF(ts[1..])
  {
    hide Proper;
    assert forall i | 0 <= i < |ts| - 1 :: ts[1..][i] == ts[i + 1];
    if Proper(ts[0]) && ProperF(ts[1..]) {
      forall i | 0 <= i < |ts| ensures Proper(ts[i]) {
        assert i > 0 ==> ts[i] == ts[1..][i - 1];
      }
    }
  }

  /** All children of a bus get linked exactly if its reports say so. */
  lemma BusProper(t: Tree)
    requires IsBus(t)
    ensures ProperBus(t) <==> LinksAllF(Stream(t))
    ensures WiredAll(t)
  {
    hide Parents, Linked, Children;
    HangingProper(t.kids, 0);
    HangingWired(t.kids, 0);
    assert Stream(t) == StreamF(t.kids) + [t.rec];
    assert LinksAllF(Stream(t)) <==> LinksAllF(StreamF(t.kids)) && LinksAll(t.rec) by {
      assert forall r :: r in Stream(t) <==> r in StreamF(t.kids) || r == t.rec;
    }
    BusWired(t);
  }

  lemma BusWired(t: Tree)
    requires IsBus(t) && WiredF(t.kids)
    ensures WiredAll(t)
  {
  }

  // ---- reports of whole buses ----------------------------------------------

  /** A test on the reports: the child ports account for every PHY but the root, and all of
      them are looked at. */
  predicate WholeBus(rs: seq<SelfId>) { ChildTotal(rs) == |rs| - 1 && LinksAllF(rs) }

  /** An accepted report gives one tree with all children linked exactly if it passes the test. */
  lemma WholeBusIff(rs: seq<SelfId>)
    requires rs != [] && Parse(rs, 0, []).Some?
    ensures WholeBus(rs) <==> exists t :: Parse(rs, 0, []) == Some([t]) && ProperBus(t)
    ensures var f := Parse(rs, 0, []).value;
      WholeBus(rs) ==> f != [] && f == [f[0]] && ProperBus(f[0]) && WiredAll(f[0]) && Stream(f[0]) == rs
  {
    hide ProperBus, LinksAllF, IsBus, Parse, ChildTotal;
    OneTreeIff(rs);
    var f := Parse(rs, 0, []).value;
    if |f| == 1 {
      assert f == [f[0]];
      OneTree(rs, f[0]);
      BusProper(f[0]);
    }
  }
}
