/** IP over IEEE 1394: the fragment stepping of the sender, the receiver of a peer, and the
    round trip of datagrams between them. */
module FwNet {
  import opened Basics
  import opened Arith
  import opened Fragments
  import opened FragmentOrder

  // ---- frames --------------------------------------------------------------

  /** An encapsulation header and what follows it. */
  datatype Frame = Frame(header: Header, data: seq<byte>)

  /** How the receiver takes a frame apart. */
  function Parse(f: Frame): Packet {
    if LinkFragment(f.header) == UNFRAGMENTED then Whole(EtherType(f.header), f.data)
    else if LinkFragment(f.header) == FIRST then
      Fragment(true, EtherType(f.header), Label(f.header), DatagramSize(f.header), Piece(0, f.data))
    else Fragment(false, 0, Label(f.header), DatagramSize(f.header), Piece(FragmentOffset(f.header), f.data))
  }

  function Unfragmented(etherType: nat, d: seq<byte>): Frame
    requires etherType < 0x1_0000
  {
    Frame(Header(etherType, 0), d)
  }

  /** The frames of a datagram from offset `off` on, `m` bytes in each. */
  function Later(d: seq<byte>, dgl: nat, m: nat, off: nat): (fs: seq<Frame>)
    requires 0 < off < |d| <= 0x1000 && m > 0 && dgl < 0x1_0000
    decreases |d| - off
  {
    if |d| - off <= m then [Frame(LaterHeader(LAST, |d|, off, dgl), d[off..])]
    else [Frame(LaterHeader(INTERIOR, |d|, off, dgl), d[off..off + m])] + Later(d, dgl, m, off + m)
  }

  /** What is sent for a datagram: one frame if it fits, else a first fragment and others. */
  function Frames(d: seq<byte>, etherType: nat, dgl: nat, maxPayload: nat): (fs: seq<Frame>)
    requires 0 < |d| <= 0x1000 && maxPayload > 4 && dgl < 0x1_0000 && etherType < 0x1_0000
  {
    if |d| <= maxPayload then [Unfragmented(etherType, d)]
    else
      var m := maxPayload - 4;
      [Frame(FirstHeader(etherType, |d|, dgl), d[..m])] + Later(d, dgl, m, m)
  }

  function ReceiveAll(s: PeerState, fs: seq<Frame>): (PeerState, seq<Delivery>)
    decreases |fs|
  {
    if fs == [] then (s, []) else
    var (t, got) := Receive(s, Parse(fs[0]));
    var (u, rest) := ReceiveAll(t, fs[1..]);
    (u, (if got.Some? then [got.value] else []) + rest)
  }

  // ---- the round trip ------------------------------------------------------

  lemma {:induction false} FindLast(pds: seq<Partial>, d: Partial)
    requires Find(pds, d.dgl).None?
    ensures Find(pds + [d], d.dgl) == Some(|pds|)
  {
    if pds != [] {
      assert (pds + [d])[1..] == pds[1..] + [d];
      FindLast(pds[1..], d);
    } else {
      assert pds + [d] == [d];
    }
  }

  /** The datagram as far as it has been received in order. */
  ghost predicate Prefix(part: Partial, d: seq<byte>, etherType: nat, dgl: nat, off: nat) {
    && part.dgl == dgl && part.etherType == etherType && part.size == |d| == |part.buf|
    && 0 < off <= |d| && part.frags == [Interval(0, off)] && part.buf[..off] == d[..off]
  }

  lemma PrefixGrows(part: Partial, d: seq<byte>, etherType: nat, dgl: nat, off: nat, next: nat)
    requires Prefix(part, d, etherType, dgl, off) && off < next <= |d|
    ensures var p := Piece(off, d[off..next]);
      && Fits(|d|, p) && !Overlap(part.frags, Span(p)) && Prefix(Updated(part, p), d, etherType, dgl, next)
  {
    var p := Piece(off, d[off..next]);
    var u := Updated(part, p);
    assert u.frags == [Interval(0, next)];
    assert u.buf[..next] == part.buf[..off] + p.data == d[..next];
  }

  lemma StoreNext(s: PeerState, part: Partial, d: seq<byte>, etherType: nat, dgl: nat, off: nat, next: nat)
    requires Prefix(part, d, etherType, dgl, off) && off < next <= |d| && Find(s.pds, dgl).None?
    ensures var p := Piece(off, d[off..next]);
      Fits(|d|, p) && Stored(PeerState(s.pds + [part], s.pdgSize + 1), dgl, |d|, p)
        == PeerState(s.pds + [Updated(part, p)], s.pdgSize + 1)
  {
    hide Updated, Overlap;
    FindLast(s.pds, part);
    PrefixGrows(part, d, etherType, dgl, off, next);
    assert Dropped(s.pds + [part], |s.pds|) == s.pds;
  }

  lemma ReceiveNext(s: PeerState, part: Partial, d: seq<byte>, etherType: nat, dgl: nat, off: nat, next: nat, f: Frame)
    requires Prefix(part, d, etherType, dgl, off) && off < next <= |d| && Find(s.pds, dgl).None?
    requires Parse(f) == Fragment(false, 0, dgl, |d|, Piece(off, d[off..next]))
    ensures var p, r := Piece(off, d[off..next]), Receive(PeerState(s.pds + [part], s.pdgSize + 1), Parse(f));
      && Fits(|d|, p) && Prefix(Updated(part, p), d, etherType, dgl, next)
      && r == if next == |d| then (s, Some(Delivery(etherType, d)))
              else (PeerState(s.pds + [Updated(part, p)], s.pdgSize + 1), None)
  {
    hide Updated, Stored, Parse;
    StoreNext(s, part, d, etherType, dgl, off, next);
    PrefixGrows(part, d, etherType, dgl, off, next);
    var u := Updated(part, Piece(off, d[off..next]));
    var t := PeerState(s.pds + [u], s.pdgSize + 1);
    assert t.pds[..|t.pds| - 1] == s.pds && t.pds[|t.pds| - 1] == u && t.pds[|t.pds| - 1 := u] == t.pds;
    if next == |d| {
      assert u.buf == u.buf[..next] && d == d[..next];
    }
  }

  lemma ParseLater(lf: nat, d: seq<byte>, off: nat, next: nat, dgl: nat)
    requires (lf == LAST || lf == INTERIOR) && off < next <= |d| <= 0x1000 && dgl < 0x1_0000
    ensures Parse(Frame(LaterHeader(lf, |d|, off, dgl), d[off..next]))
      == Fragment(false, 0, dgl, |d|, Piece(off, d[off..next]))
  {
    hide LaterHeader, LinkFragment, FragmentOffset, DatagramSize, Label;
    LaterHeaderFields(lf, |d|, off, dgl);
  }

  lemma {:induction false} LaterReceived(s: PeerState, part: Partial, d: seq<byte>, etherType: nat, dgl: nat, m: nat, off: nat)
    requires Prefix(part, d, etherType, dgl, off) && off < |d| <= 0x1000 && m > 0 && dgl < 0x1_0000
    requires Find(s.pds, dgl).None?
    ensures ReceiveAll(PeerState(s.pds + [part], s.pdgSize + 1), Later(d, dgl, m, off)) == (s, [Delivery(etherType, d)])
    decreases |d| - off
  {
    hide Receive, Parse, Updated, LaterHeader;
    var fs := Later(d, dgl, m, off);
    if |d| - off <= m {
      assert d[off..] == d[off..|d|];
      ParseLater(LAST, d, off, |d|, dgl);
      ReceiveNext(s, part, d, etherType, dgl, off, |d|, fs[0]);
      assert fs[1..] == [] && ReceiveAll(s, []) == (s, []);
      assert [Delivery(etherType, d)] + [] == [Delivery(etherType, d)];
    } else {
      ParseLater(INTERIOR, d, off, off + m, dgl);
      ReceiveNext(s, part, d, etherType, dgl, off, off + m, fs[0]);
      assert fs[1..] == Later(d, dgl, m, off + m);
      LaterReceived(s, Updated(part, Piece(off, d[off..off + m])), d, etherType, dgl, m, off + m);
      assert [] + [Delivery(etherType, d)] == [Delivery(etherType, d)];
    }
  }

  lemma ReceiveFirst(s: PeerState, d: seq<byte>, etherType: nat, dgl: nat, m: nat)
    requires PeerOk(s) && |s.pds| < MAX_FRAGMENTS && Find(s.pds, dgl).None? && 0 < m < |d| <= 0x1000
    requires dgl < 0x1_0000 && etherType < 0x1_0000
    ensures Fits(|d|, Piece(0, d[..m]))
    ensures var part := NewPartial(dgl, |d|, Piece(0, d[..m])).(etherType := etherType);
      && Prefix(part, d, etherType, dgl, m)
      && Receive(s, Parse(Frame(FirstHeader(etherType, |d|, dgl), d[..m])))
        == (PeerState(s.pds + [part], s.pdgSize + 1), None)
  {
    hide FirstHeader, LinkFragment, EtherType, DatagramSize, Label, PartialOk, PeerOk;
    FirstHeaderFields(etherType, |d|, dgl);
    EvictedOk(s);
    FirstPartial(d, etherType, dgl, m);
    var part := NewPartial(dgl, |d|, Piece(0, d[..m]));
    assert (s.pds + [part])[|s.pds| := part.(etherType := etherType)] == s.pds + [part.(etherType := etherType)];
  }

  lemma FirstPartial(d: seq<byte>, etherType: nat, dgl: nat, m: nat)
    requires 0 < m < |d|
    ensures var p := Piece(0, d[..m]);
      Fits(|d|, p) && Prefix(NewPartial(dgl, |d|, p).(etherType := etherType), d, etherType, dgl, m)
  {
    var p := Piece(0, d[..m]);
    assert Insert([], 0, Span(p)) == [Interval(0, m)];
    assert Write(Blank(|d|), p)[..m] == d[..m];
  }

  /** Every datagram of 1 to 4096 bytes, sent in frames of any size and received in order by a
      peer without a stale partial datagram of its label, is delivered once and unchanged, and
      leaves nothing behind. */
  lemma RoundTrip(s: PeerState, d: seq<byte>, etherType: nat, dgl: nat, maxPayload: nat)
    requires 0 < |d| <= 0x1000 && maxPayload > 4 && dgl < 0x1_0000 && etherType < 0x1_0000
    requires PeerOk(s) && |s.pds| < MAX_FRAGMENTS && Find(s.pds, dgl).None?
    ensures ReceiveAll(s, Frames(d, etherType, dgl, maxPayload)) == (s, [Delivery(etherType, d)])
  {
    hide Receive, Parse, NewPartial, Prefix, FirstHeader, Later, PeerOk;
    var fs := Frames(d, etherType, dgl, maxPayload);
    if |d| <= maxPayload {
      ReceiveWhole(s, d, etherType);
      assert fs[1..] == [] && ReceiveAll(s, []) == (s, []);
      assert [Delivery(etherType, d)] + [] == [Delivery(etherType, d)];
    } else {
      var m := maxPayload - 4;
      ReceiveFirst(s, d, etherType, dgl, m);
      var part := NewPartial(dgl, |d|, Piece(0, d[..m])).(etherType := etherType);
      assert fs[1..] == Later(d, dgl, m, m);
      LaterReceived(s, part, d, etherType, dgl, m, m);
      assert [] + [Delivery(etherType, d)] == [Delivery(etherType, d)];
    }
  }

  lemma ReceiveWhole(s: PeerState, d: seq<byte>, etherType: nat)
    requires etherType < 0x1_0000 && d != []
    ensures Receive(s, Parse(Unfragmented(etherType, d))) == (s, Some(Delivery(etherType, d)))
  {
  }

  // ---- any order of arrival ------------------------------------------------

  /** Packets with the fragments `ps` of datagram `d`, in some order. */
  ghost predicate FragmentsOf(pkts: seq<Packet>, ps: seq<Piece>, d: seq<byte>, etherType: nat, dgl: nat) {
    && |pkts| == |ps| && Pieces(ps, |d|) && d != [] && (forall x: nat | x < |d| :: CoveredBy(ps, x))
    && (forall k | 0 <= k < |ps| :: FragmentOf(pkts[k], ps[k], d, etherType, dgl))
  }

  predicate FragmentOf(pkt: Packet, p: Piece, d: seq<byte>, etherType: nat, dgl: nat) {
    && pkt == Fragment(p.offset == 0, if p.offset == 0 then etherType else 0, dgl, |d|, p)
    && p.offset + |p.data| <= |d| && p.data == d[p.offset..p.offset + |p.data|]
  }

  function ReceivePackets(s: PeerState, pkts: seq<Packet>): (PeerState, seq<Delivery>) {
    if pkts == [] then (s, []) else
    var n := |pkts| - 1;
    var (t, before) := ReceivePackets(s, pkts[..n]);
    var (u, got) := Receive(t, pkts[n]);
    (u, before + (if got.Some? then [got.value] else []))
  }

  /** The partial datagram after the fragments `ps`. */
  ghost predicate Gathered(part: Partial, ps: seq<Piece>, d: seq<byte>, etherType: nat, dgl: nat) {
    && part.dgl == dgl && part.size == |d| && MadeOf(part, ps)
    && ((exists k :: 0 <= k < |ps| && ps[k].offset == 0) ==> part.etherType == etherType)
  }

  function WithType(part: Partial, p: Piece, etherType: nat): Partial {
    if p.offset == 0 then part.(etherType := etherType) else part
  }

  lemma MadeOfTyped(part: Partial, ps: seq<Piece>, etherType: nat)
    requires MadeOf(part, ps)
    ensures MadeOf(part.(etherType := etherType), ps)
  {
    EtherTypeFree(part, etherType);
    hide PartialOk;
  }

  lemma GatherFirst(s: PeerState, p: Piece, d: seq<byte>, etherType: nat, dgl: nat, pkt: Packet)
    requires PeerOk(s) && |s.pds| < MAX_FRAGMENTS && Find(s.pds, dgl).None? && Fits(|d|, p)
    requires FragmentOf(pkt, p, d, etherType, dgl)
    ensures Gathered(WithType(NewPartial(dgl, |d|, p), p, etherType), [p], d, etherType, dgl)
    ensures Stored(s, dgl, |d|, p) == PeerState(s.pds + [NewPartial(dgl, |d|, p)], s.pdgSize + 1)
  {
    hide PartialOk, PeerOk, MadeOf, Fits;
    EvictedOk(s);
    MadeOfFirst(dgl, |d|, p);
    NewPartialShape(dgl, |d|, p);
    MadeOfTyped(NewPartial(dgl, |d|, p), [p], etherType);
  }

  lemma NewPartialShape(dgl: nat, size: nat, p: Piece)
    requires Fits(size, p)
    ensures NewPartial(dgl, size, p).dgl == dgl && NewPartial(dgl, size, p).size == size
  {
  }

  lemma GatherNext(s: PeerState, part: Partial, ps: seq<Piece>, p: Piece, d: seq<byte>, etherType: nat, dgl: nat, pkt: Packet)
    requires Gathered(part, ps, d, etherType, dgl) && Pieces(ps + [p], |d|) && Find(s.pds, dgl).None?
    requires FragmentOf(pkt, p, d, etherType, dgl)
    ensures Fits(|d|, p) && |part.buf| == part.size
    ensures Gathered(WithType(Updated(part, p), p, etherType), ps + [p], d, etherType, dgl)
    ensures Stored(PeerState(s.pds + [part], s.pdgSize + 1), dgl, |d|, p) == PeerState(s.pds + [Updated(part, p)], s.pdgSize + 1)
  {
    hide PartialOk, Overlap, MadeOf, Pieces, Fits;
    MadeOfNext(part, ps, p);
    FindLast(s.pds, part);
    assert Dropped(s.pds + [part], |s.pds|) == s.pds;
    MadeOfTyped(Updated(part, p), ps + [p], etherType);
    forall k | 0 <= k < |ps + [p]| && (ps + [p])[k].offset == 0 && p.offset != 0
      ensures exists k :: 0 <= k < |ps| && ps[k].offset == 0
    {
      assert ps[k].offset == 0;
    }
  }

  /** Receiving one packet, given where its fragment is stored. */
  lemma ReceiveStored(s: PeerState, t: PeerState, part: Partial, p: Piece, d: seq<byte>, etherType: nat, dgl: nat, pkt: Packet)
    requires FragmentOf(pkt, p, d, etherType, dgl) && Fits(|d|, p) && part.frags != []
    requires Stored(t, dgl, |d|, p) == PeerState(s.pds + [part], s.pdgSize + 1)
    ensures var q := WithType(part, p, etherType);
      Receive(t, pkt) == if IsComplete(q) then (s, Some(Delivery(q.etherType, q.buf)))
                         else (PeerState(s.pds + [q], s.pdgSize + 1), None)
  {
    hide Stored, Fits;
    var q, pds := WithType(part, p, etherType), s.pds + [part];
    assert pds[..|pds| - 1] == s.pds && pds[|pds| - 1 := q] == s.pds + [q] && pds[|pds| - 1] == part;
  }

  /** A datagram that is complete holds its bytes and its ether type. */
  lemma GatheredAll(part: Partial, ps: seq<Piece>, d: seq<byte>, etherType: nat, dgl: nat, pkts: seq<Packet>)
    requires Gathered(part, ps, d, etherType, dgl) && FragmentsOf(pkts, ps, d, etherType, dgl)
    ensures part.buf == d && part.etherType == etherType
  {
    FragsExist(part);
    hide Pieces, MadeOf;
    MadeOfIs(part, ps);
    forall x: nat | x < |d| ensures part.buf[x] == d[x] {
      assert CoveredBy(ps, x);
      var k :| 0 <= k < |ps| && In(Span(ps[k]), x);
      PiecesAt(ps, |d|, k);
      assert FragmentOf(pkts[k], ps[k], d, etherType, dgl) && Holds(part.buf, ps[k]);
      assert part.buf[ps[k].offset + (x - ps[k].offset)] == ps[k].data[x - ps[k].offset];
    }
    assert CoveredBy(ps, 0);
    var k :| 0 <= k < |ps| && In(Span(ps[k]), 0);
    assert ps[k].offset == 0;
  }

  lemma MadeOfIs(part: Partial, ps: seq<Piece>)
    requires MadeOf(part, ps)
    ensures PartialOk(part) && part.frags != [] && forall k | 0 <= k < |ps| :: Holds(part.buf, ps[k])
  {
  }

  lemma PiecesPrefix(ps: seq<Piece>, size: nat, n: nat)
    requires Pieces(ps, size) && n <= |ps|
    ensures Pieces(ps[..n], size)
  {
  }

  /** After some of the fragments: nothing was delivered yet, and they are gathered. */
  lemma {:induction false} PrefixGathered(s: PeerState, pkts: seq<Packet>, ps: seq<Piece>, d: seq<byte>, etherType: nat, dgl: nat,
                                          n: nat) returns (part: Partial)
    requires PeerOk(s) && |s.pds| < MAX_FRAGMENTS && Find(s.pds, dgl).None?
    requires FragmentsOf(pkts, ps, d, etherType, dgl) && 0 < n < |ps|
    ensures Gathered(part, ps[..n], d, etherType, dgl)
    ensures ReceivePackets(s, pkts[..n]) == (PeerState(s.pds + [part], s.pdgSize + 1), [])
    decreases n
  {
    hide Receive, Gathered, PeerOk, FragmentOf, Pieces, CoveredBy, MadeOf, NewPartial, Updated;
    part := OneMore(s, pkts, ps, d, etherType, dgl, n);
    GatheredIs(part, ps[..n], d, etherType, dgl);
    CompleteWhenFine(part, ps[..n], ps);
  }

  lemma GatheredIs(part: Partial, ps: seq<Piece>, d: seq<byte>, etherType: nat, dgl: nat)
    requires Gathered(part, ps, d, etherType, dgl)
    ensures part.dgl == dgl && part.size == |d| && MadeOf(part, ps) && ps != []
  {
  }

  /** The n-th packet is received: its fragment is added to the ones before. */
  lemma {:induction false} OneMore(s: PeerState, pkts: seq<Packet>, ps: seq<Piece>, d: seq<byte>, etherType: nat, dgl: nat, n: nat)
    returns (part: Partial)
    requires PeerOk(s) && |s.pds| < MAX_FRAGMENTS && Find(s.pds, dgl).None?
    requires FragmentsOf(pkts, ps, d, etherType, dgl) && 0 < n <= |ps|
    ensures Gathered(part, ps[..n], d, etherType, dgl) && part.frags != []
    ensures ReceivePackets(s, pkts[..n])
      == if IsComplete(part) then (s, [Delivery(part.etherType, part.buf)]) else (PeerState(s.pds + [part], s.pdgSize + 1), [])
    decreases n, 0
  {
    hide Receive, Gathered, PeerOk, Pieces, CoveredBy, MadeOf, NewPartial, Updated, FragmentOf, Stored, WithType, IsComplete;
    var p, pkt := ps[n - 1], pkts[n - 1];
    assert FragmentOf(pkt, p, d, etherType, dgl);
    PiecesAt(ps, |d|, n - 1);
    assert pkts[..n][..n - 1] == pkts[..n - 1] && pkts[..n][n - 1] == pkt;
    assert ps[..n] == ps[..n - 1] + [p];
    if n == 1 {
      assert pkts[..0] == [] && ps[..0] == [] && ps[..1] == [p];
      GatherFirst(s, p, d, etherType, dgl, pkt);
      part := WithType(NewPartial(dgl, |d|, p), p, etherType);
      TypedFrags(NewPartial(dgl, |d|, p), [p], p, d, etherType, dgl);
      ReceiveStored(s, s, NewPartial(dgl, |d|, p), p, d, etherType, dgl, pkt);
    } else {
      var before := PrefixGathered(s, pkts, ps, d, etherType, dgl, n - 1);
      PiecesPrefix(ps, |d|, n);
      GatheredIs(before, ps[..n - 1], d, etherType, dgl);
      GatherNext(s, before, ps[..n - 1], p, d, etherType, dgl, pkt);
      part := WithType(Updated(before, p), p, etherType);
      TypedFrags(Updated(before, p), ps[..n], p, d, etherType, dgl);
      ReceiveStored(s, PeerState(s.pds + [before], s.pdgSize + 1), Updated(before, p), p, d, etherType, dgl, pkt);
    }
    assert [] + [Delivery(part.etherType, part.buf)] == [Delivery(part.etherType, part.buf)];
    var none: seq<Delivery> := [];
    assert none + none == none;
  }

  lemma PiecesAt(ps: seq<Piece>, size: nat, k: nat)
    requires Pieces(ps, size) && k < |ps|
    ensures Fits(size, ps[k])
  {
  }

  lemma TypedFrags(part: Partial, ps: seq<Piece>, p: Piece, d: seq<byte>, etherType: nat, dgl: nat)
    requires Gathered(WithType(part, p, etherType), ps, d, etherType, dgl)
    ensures part.frags != [] && WithType(part, p, etherType).frags == part.frags
  {
    MadeOfIs(WithType(part, p, etherType), ps);
    hide MadeOf;
  }

  /** A datagram whose fragments arrive in any order, without overlaps and all of them, is
      delivered, unchanged and once, if and only if every arrival is fine; otherwise its partial
      datagram stays behind. */
  lemma AnyOrder(s: PeerState, pkts: seq<Packet>, ps: seq<Piece>, d: seq<byte>, etherType: nat, dgl: nat)
    requires PeerOk(s) && |s.pds| < MAX_FRAGMENTS && Find(s.pds, dgl).None?
    requires FragmentsOf(pkts, ps, d, etherType, dgl)
    ensures AllFine(ps) ==> ReceivePackets(s, pkts) == (s, [Delivery(etherType, d)])
    ensures !AllFine(ps) ==> ReceivePackets(s, pkts).1 == [] && |ReceivePackets(s, pkts).0.pds| == |s.pds| + 1
  {
    hide Receive, Gathered, PeerOk, MadeOf, ReceivePackets, AllFine, IsComplete;
    var n := |ps|;
    SomeFragment(ps, d);
    var part := OneMore(s, pkts, ps, d, etherType, dgl, n);
    assert pkts[..n] == pkts && ps[..n] == ps;
    GatheredIs(part, ps, d, etherType, dgl);
    GatheredAll(part, ps, d, etherType, dgl, pkts);
    CompleteWhenFine(part, ps, ps);
  }

  lemma SomeFragment(ps: seq<Piece>, d: seq<byte>)
    requires d != [] && forall x: nat | x < |d| :: CoveredBy(ps, x)
    ensures ps != []
  {
    assert CoveredBy(ps, 0);
  }

  // ---- the sender ----------------------------------------------------------

  lemma {:induction false} LaterPrefix(d: seq<byte>, dgl: nat, m: nat, off: nat)
    requires 0 < off < |d| <= 0x1000 && m > 0 && dgl < 0x1_0000
    ensures Later(d, dgl, m, off)[0].header
      == LaterHeader(if |d| - off <= m then LAST else INTERIOR, |d|, off, dgl)
    ensures Later(d, dgl, m, off)[0].data == d[off..if |d| - off <= m then |d| else off + m]
  {
  }

  lemma CeilStep(a: nat, b: nat)
    requires b > 0 && a > b
    ensures CeilDiv(a, b) == CeilDiv(a - b, b) + 1
    ensures CeilDiv(a, b) > 1
    ensures CeilDiv(a - b, b) == 1 <==> a - b <= b
  {
    var q, r := (a + b - 1) / b, (a + b - 1) % b;
    assert a + b - 1 == q * b + r;
    assert (q - 1) * b == q * b - b;
    QuotientIs(a - 1, q - 1, r, b);
    var x := a - b;
    if x <= b {
      QuotientIs(x + b - 1, 1, x - 1, b);
    } else {
      QuotientIsLarge(x + b - 1, b);
    }
  }

  lemma QuotientIsLarge(y: nat, b: nat)
    requires b > 0 && y >= 2 * b
    ensures y / b >= 2
  {
    assert y == y / b * b + y % b;
  }

  /** struct fwnet_packet_task while its fragments are being sent. */
  class PacketTask {
    /** What skb still holds, and the fields of the current header. */
    var skb: seq<byte>
    var lf: nat
    var fgOff: nat
    var maxPayload: nat
    var outstanding: nat

    /** A fragmented datagram, `frames` having been sent: the rest of it is still to come. */
    ghost predicate Sending(d: seq<byte>, etherType: nat, dgl: nat, m: nat, frames: seq<Frame>)
      reads this
    {
      && m > 0 && m + 4 < |d| <= 0x1000 && dgl < 0x1_0000 && etherType < 0x1_0000
      && fgOff + |skb| == |d| && skb == d[fgOff..] && |skb| > 0 && 8 <= maxPayload <= |skb| + 8
      && outstanding == CeilDiv(|skb|, m) >= 1
      && (outstanding > 1 ==> maxPayload == m + 8 && m < |skb| && (lf == FIRST || lf == INTERIOR))
      && (outstanding > 1 ==> Frames(d, etherType, dgl, m + 4) == frames + Later(d, dgl, m, fgOff + m))
      && (outstanding == 1 ==> Frames(d, etherType, dgl, m + 4) == frames)
    }

    /** fwnet_transmit_packet_done with fragments outstanding: the next one.  The BUG for a header
        that cannot be followed is never reached. */
    method SendNext(ghost d: seq<byte>, ghost etherType: nat, dgl: nat, m: nat, size: nat, ghost frames: seq<Frame>)
      returns (f: Frame)
      requires Sending(d, etherType, dgl, m, frames) && outstanding > 1 && size == |d|
      modifies this
      ensures Sending(d, etherType, dgl, m, frames + [f])
      ensures outstanding == old(outstanding) - 1
    {
      hide LaterHeader, CeilDiv, Later, Frames;
      CeilStep(|skb|, m);
      outstanding := outstanding - 1;
      assert lf == FIRST || lf == INTERIOR;
      ghost var off := fgOff + m;
      fgOff := fgOff + maxPayload - 8;
      skb := skb[maxPayload - 8..];
      assert skb == d[off..] && fgOff == off;
      LaterPrefix(d, dgl, m, off);
      if outstanding > 1 {
        lf := INTERIOR;
        CeilStep(|skb|, m);
      } else {
        lf := LAST;
        maxPayload := |skb| + 8;
      }
      assert skb[..maxPayload - 8] == d[fgOff..fgOff + (maxPayload - 8)];
      f := Frame(LaterHeader(lf, size, fgOff, dgl), skb[..maxPayload - 8]);
      LaterCons(d, dgl, m, fgOff, frames, f);
    }

    /** fwnet_tx, fwnet_send_packet and fwnet_write_complete until nothing is outstanding, frame k
        being acknowledged or not: the frames are those of the datagram, up to the first one that
        fails. */
    method Transmit(d: seq<byte>, etherType: nat, dgl: nat, limit: nat, acks: nat -> bool)
      returns (frames: seq<Frame>, delivered: bool)
      requires 0 < |d| <= 0x1000 && limit > 4 && dgl < 0x1_0000 && etherType < 0x1_0000
      modifies this
      ensures outstanding == 0 && frames != [] && frames <= Frames(d, etherType, dgl, limit)
      ensures forall k | 0 <= k < |frames| - 1 :: acks(k)
      ensures delivered == acks(|frames| - 1) && (delivered ==> frames == Frames(d, etherType, dgl, limit))
    {
      skb, fgOff := d, 0;
      if |d| <= limit {
        assert d[..|d|] == d;
        lf, outstanding, maxPayload := UNFRAGMENTED, 1, |d| + 4;
        frames := [Frame(Header(etherType, 0), skb[..maxPayload - 4])];
        outstanding := 0;
        return frames, acks(0);
      }
      var m := limit - 4;
      lf, outstanding, maxPayload := FIRST, CeilDiv(|d|, m), m + 8;
      frames := [Frame(FirstHeader(etherType, |d|, dgl), skb[..maxPayload - 8])];
      CeilStep(|d|, m);
      assert Sending(d, etherType, dgl, m, frames) by {
        hide FirstHeader, CeilDiv, Later;
      }
      hide FirstHeader, LaterHeader, CeilDiv, Later, Frames, Sending;
      while outstanding > 1
        invariant Sending(d, etherType, dgl, m, frames) && frames != [] && outstanding >= 1
        invariant forall k | 0 <= k < |frames| - 1 :: acks(k)
        decreases outstanding
      {
        if !acks(|frames| - 1) {
          SentSoFar(d, etherType, dgl, m, frames);
          outstanding := 0;
          return frames, false;
        }
        var f := SendNext(d, etherType, dgl, m, |d|, frames);
        frames := frames + [f];
      }
      SentSoFar(d, etherType, dgl, m, frames);
      outstanding := 0;
      delivered := acks(|frames| - 1);
    }

    lemma SentSoFar(d: seq<byte>, etherType: nat, dgl: nat, m: nat, frames: seq<Frame>)
      requires Sending(d, etherType, dgl, m, frames)
      ensures frames <= Frames(d, etherType, dgl, m + 4)
      ensures outstanding == 1 ==> frames == Frames(d, etherType, dgl, m + 4)
    {
      hide Frames, Later, CeilDiv;
    }
  }

  lemma LaterCons(d: seq<byte>, dgl: nat, m: nat, off: nat, sent: seq<Frame>, f: Frame)
    requires 0 < off < |d| <= 0x1000 && m > 0 && dgl < 0x1_0000
    requires f == Later(d, dgl, m, off)[0]
    ensures |d| - off <= m ==> sent + Later(d, dgl, m, off) == sent + [f]
    ensures |d| - off > m ==> sent + Later(d, dgl, m, off) == sent + [f] + Later(d, dgl, m, off + m)
  {
    hide LaterHeader;
  }

  // ---- the receiver --------------------------------------------------------

  /** fwnet_frag_overlap */
  method FragOverlap(fs: seq<Interval>, f: Interval) returns (found: bool)
    ensures found == Overlap(fs, f)
  {
    for i := 0 to |fs|
      invariant forall k | 0 <= k < i :: !Meet(f, fs[k])
    {
      if Meet(f, fs[i]) {
        return true;
      }
    }
    return false;
  }

  /** fwnet_frag_new on the list of a partial datagram. */
  method FragNew(fs: seq<Interval>, f: Interval) returns (r: seq<Interval>)
    ensures r == Insert(fs, 0, f)
    ensures Apart(fs) && f.len > 0 && !Overlap(fs, f) ==> SameCover(fs, f, r) && Apart(r)
  {
    hide Apart, SameCover, Overlap;
    if Apart(fs) && f.len > 0 && !Overlap(fs, f) {
      InsertExact(fs, f);
    }
    ghost var whole := Insert(fs, 0, f);
    var i := 0;
    while i < |fs|
      invariant i <= |fs| && whole == Insert(fs, i, f)
    {
      if End(fs[i]) == f.offset {
        if i + 1 < |fs| && End(f) == fs[i + 1].offset {
          return fs[..i] + [Interval(fs[i].offset, fs[i].len + f.len + fs[i + 1].len)] + fs[i + 2..];
        }
        return fs[i := Interval(fs[i].offset, fs[i].len + f.len)];
      }
      if End(f) == fs[i].offset {
        if i > 0 && End(fs[i - 1]) == f.offset {
          return fs[..i - 1] + [Interval(fs[i - 1].offset, fs[i - 1].len + fs[i].len + f.len)] + fs[i + 1..];
        }
        return fs[i := Interval(f.offset, fs[i].len + f.len)];
      }
      if f.offset > End(fs[i]) {
        return fs[..i + 1] + [f] + fs[i + 1..];
      }
      if End(f) < fs[i].offset {
        return fs[..i] + [f] + fs[i..];
      }
      i := i + 1;
    }
    return [f] + fs;
  }

  class Peer {
    var pdList: seq<Partial>
    var pdgSize: nat

    ghost function View(): PeerState
      reads this
    {
      PeerState(pdList, pdgSize)
    }

    ghost predicate Valid()
      reads this
    {
      PeerOk(View())
    }

    constructor ()
      ensures Valid() && pdList == []
    {
      pdList, pdgSize := [], 0;
    }

    /** fwnet_incoming_packet, with or without memory: any frame keeps the list and its count, and
        whatever is delivered is what the specification delivers. */
    method Incoming(f: Frame, memory: bool) returns (got: Option<Delivery>)
      requires Valid()
      modifies this
      ensures Valid() && pdgSize == |pdList| <= MAX_FRAGMENTS
      ensures (View(), got) == (if memory then Receive(old(View()), Parse(f)) else ReceiveStarved(old(View()), Parse(f)))
    {
      hide Stored, PeerOk, PartialOk, NeedsMemory, GivenUp;
      ghost var s := View();
      ReceiveOk(s, Parse(f));
      StarvedOk(s, Parse(f));
      SizeIs(Receive(s, Parse(f)).0);
      SizeIs(ReceiveStarved(s, Parse(f)).0);
      match Parse(f)
      case Whole(etherType, data) =>
        return if !memory || data == [] then None else Some(Delivery(etherType, data));
      case Fragment(isFirst, etherType, dgl, size, p) =>
        if !Fits(size, p) {
          return None;
        }
        StoredOk(s, dgl, size, p);
        var ok := Store(dgl, size, p, memory);
        if !ok {
          return None;
        }
        var n := |pdList| - 1;
        LastOk(View());
        ghost var t := pdList;
        assert t[n := t[n]] == t && t[n := t[n].(etherType := etherType)][..n] == t[..n];
        if isFirst {
          pdList := pdList[n := pdList[n].(etherType := etherType)];
        }
        if IsComplete(pdList[n]) {
          got := Some(Delivery(pdList[n].etherType, pdList[n].buf));
          pdgSize := pdgSize - 1;
          pdList := pdList[..n];
        } else {
          got := None;
        }
    }

    /** The fragment goes to a new partial datagram, or to the one of its label unless that has
        another size or overlaps it.  Without the memory it needs, that one is given up. */
    method Store(dgl: nat, size: nat, p: Piece, memory: bool) returns (ok: bool)
      requires Valid() && Fits(size, p)
      modifies this
      ensures ok <==> memory || !NeedsMemory(old(View()), dgl, size, p)
      ensures View() == if ok then Stored(old(View()), dgl, size, p) else GivenUp(old(View()), dgl)
    {
      hide PeerOk, PartialOk, Overlap, Evicted;
      ghost var s := View();
      SizeIs(s);
      ok := memory;
      var k := FindPartial(dgl);
      if k.None? {
        while pdgSize >= MAX_FRAGMENTS
          invariant pdgSize == |pdList| && Evicted(View()) == Evicted(s)
          decreases pdgSize
        {
          EvictedStep(View());
          pdList := pdList[1..];
          pdgSize := pdgSize - 1;
        }
        EvictedEnd(View());
        if memory {
          pdList := pdList + [NewPartial(dgl, size, p)];
          pdgSize := pdgSize + 1;
        }
      } else {
        var d := pdList[k.value];
        BufferIs(s, k.value);
        var overlaps := FragOverlap(d.frags, Span(p));
        pdList := Dropped(pdList, k.value);
        if overlaps || d.size != size {
          if memory {
            pdList := pdList + [NewPartial(dgl, size, p)];
          }
        } else {
          var frags := FragNew(d.frags, Span(p));
          ok := memory || |frags| <= |d.frags|;
          if ok {
            pdList := pdList + [d.(frags := frags, buf := Write(d.buf, p), received := d.received + [p])];
          }
        }
        if !ok {
          pdgSize := pdgSize - 1;
        }
      }
    }

    /** fwnet_pd_find */
    method FindPartial(dgl: nat) returns (k: Option<nat>)
      ensures k == Find(pdList, dgl)
    {
      var i := 0;
      while i < |pdList|
        invariant i <= |pdList|
        invariant Find(pdList, dgl) == var r := Find(pdList[i..], dgl); if r.None? then None else Some(r.value + i)
      {
        if pdList[i].dgl == dgl {
          return Some(i);
        }
        i := i + 1;
      }
      return None;
    }
  }

  lemma SizeIs(s: PeerState)
    requires PeerOk(s)
    ensures s.pdgSize == |s.pds| <= MAX_FRAGMENTS
  {
  }

  lemma LastOk(s: PeerState)
    requires PeerOk(s) && s.pds != []
    ensures s.pds[|s.pds| - 1].frags != [] && s.pdgSize == |s.pds|
  {
    FragsExist(s.pds[|s.pds| - 1]);
  }

  lemma BufferIs(s: PeerState, k: nat)
    requires PeerOk(s) && k < |s.pds|
    ensures |s.pds[k].buf| == s.pds[k].size
  {
    FragsExist(s.pds[k]);
  }

  lemma EvictedStep(s: PeerState)
    requires s.pdgSize >= MAX_FRAGMENTS && s.pds != []
    ensures Evicted(s) == Evicted(PeerState(s.pds[1..], s.pdgSize - 1))
  {
  }

  lemma EvictedEnd(s: PeerState)
    requires s.pdgSize < MAX_FRAGMENTS
    ensures Evicted(s) == s
  {
  }
}
