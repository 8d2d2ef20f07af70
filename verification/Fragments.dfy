/** Datagram fragments of IP over IEEE 1394 (sections 4.2 and 4.3 of RFC 2734): the headers, the
    list of received intervals and the partial datagrams of a peer. */
module Fragments {
  import opened Basics
  import opened Arith

  type byte = x: int | 0 <= x < 0x100

  const MAX_FRAGMENTS: nat := 30
  const UNFRAGMENTED: nat := 0
  const FIRST: nat := 1
  const LAST: nat := 2
  const INTERIOR: nat := 3

  // ---- headers -------------------------------------------------------------

  datatype Header = Header(w0: u32, w1: u32)

  function LinkFragment(h: Header): nat { h.w0 / 0x4000_0000 }
  function EtherType(h: Header): nat { h.w0 % 0x1_0000 }
  function DatagramSize(h: Header): nat { h.w0 / 0x1_0000 % 0x1000 + 1 }
  function FragmentOffset(h: Header): nat { h.w0 % 0x1000 }
  function Label(h: Header): nat { h.w1 / 0x1_0000 }

  function FirstHeader(etherType: nat, size: nat, dgl: nat): Header
    requires etherType < 0x1_0000 && 1 <= size <= 0x1000 && dgl < 0x1_0000
  {
    Header(FIRST * 0x4000_0000 + (size - 1) * 0x1_0000 + etherType, dgl * 0x1_0000)
  }

  function LaterHeader(lf: nat, size: nat, offset: nat, dgl: nat): Header
    requires lf < 4 && 1 <= size <= 0x1000 && offset < 0x1000 && dgl < 0x1_0000
  {
    Header(lf * 0x4000_0000 + (size - 1) * 0x1_0000 + offset, dgl * 0x1_0000)
  }

  lemma FirstHeaderFields(etherType: nat, size: nat, dgl: nat)
    requires etherType < 0x1_0000 && 1 <= size <= 0x1000 && dgl < 0x1_0000
    ensures var h := FirstHeader(etherType, size, dgl);
      LinkFragment(h) == FIRST && EtherType(h) == etherType && DatagramSize(h) == size && Label(h) == dgl
  {
    var h := FirstHeader(etherType, size, dgl);
    QuotientIs(h.w0, FIRST, (size - 1) * 0x1_0000 + etherType, 0x4000_0000);
    FieldAt(h.w0, 4, size - 1, etherType, 0x1_0000, 0x1000);
    QuotientIs(h.w0, 0x4000 + (size - 1), etherType, 0x1_0000);
    QuotientIs(h.w1, dgl, 0, 0x1_0000);
  }

  lemma LaterHeaderFields(lf: nat, size: nat, offset: nat, dgl: nat)
    requires lf < 4 && 1 <= size <= 0x1000 && offset < 0x1000 && dgl < 0x1_0000
    ensures var h := LaterHeader(lf, size, offset, dgl);
      LinkFragment(h) == lf && FragmentOffset(h) == offset && DatagramSize(h) == size && Label(h) == dgl
  {
    var h := LaterHeader(lf, size, offset, dgl);
    QuotientIs(h.w0, lf, (size - 1) * 0x1_0000 + offset, 0x4000_0000);
    FieldAt(h.w0, lf * 4, size - 1, offset, 0x1_0000, 0x1000);
    QuotientIs(h.w0, lf * 0x4_0000 + (size - 1) * 16, offset, 0x1000);
    QuotientIs(h.w1, dgl, 0, 0x1_0000);
  }

  // ---- intervals -----------------------------------------------------------

  /** struct fwnet_fragment_info */
  datatype Interval = Interval(offset: nat, len: nat)

  function End(f: Interval): nat { f.offset + f.len }
  predicate In(f: Interval, x: nat) { f.offset <= x < End(f) }

  ghost predicate Covers(fs: seq<Interval>, x: nat) { exists k :: 0 <= k < |fs| && In(fs[k], x) }

  predicate Meet(f: Interval, g: Interval) { f.offset < End(g) && g.offset < End(f) }

  ghost predicate Apart(fs: seq<Interval>) {
    && (forall k | 0 <= k < |fs| :: fs[k].len > 0)
    && forall i, j | 0 <= i < j < |fs| :: !Meet(fs[i], fs[j])
  }

  /** fwnet_frag_overlap */
  predicate Overlap(fs: seq<Interval>, f: Interval) { exists k :: 0 <= k < |fs| && Meet(f, fs[k]) }

  /** fwnet_frag_new, from list entry `i` on. */
  function Insert(fs: seq<Interval>, i: nat, f: Interval): (r: seq<Interval>)
    requires i <= |fs|
    decreases |fs| - i
  {
    if i == |fs| then [f] + fs
    else if End(fs[i]) == f.offset then
      if i + 1 < |fs| && End(f) == fs[i + 1].offset then
        fs[..i] + [Interval(fs[i].offset, fs[i].len + f.len + fs[i + 1].len)] + fs[i + 2..]
      else fs[i := Interval(fs[i].offset, fs[i].len + f.len)]
    else if End(f) == fs[i].offset then
      if i > 0 && End(fs[i - 1]) == f.offset then
        fs[..i - 1] + [Interval(fs[i - 1].offset, fs[i - 1].len + fs[i].len + f.len)] + fs[i + 1..]
      else fs[i := Interval(f.offset, fs[i].len + f.len)]
    else if f.offset > End(fs[i]) then fs[..i + 1] + [f] + fs[i + 1..]
    else if End(f) < fs[i].offset then fs[..i] + [f] + fs[i..]
    else Insert(fs, i + 1, f)
  }

  /** A fragment that overlaps none is settled at the first entry of the list. */
  lemma InsertIsLocal(fs: seq<Interval>, f: Interval)
    requires Apart(fs) && f.len > 0 && !Overlap(fs, f)
    ensures Insert(fs, 0, f) ==
      if fs == [] then [f]
      else if End(fs[0]) == f.offset then
        if 1 < |fs| && End(f) == fs[1].offset then [Interval(fs[0].offset, fs[0].len + f.len + fs[1].len)] + fs[2..]
        else [Interval(fs[0].offset, fs[0].len + f.len)] + fs[1..]
      else if End(f) == fs[0].offset then [Interval(f.offset, fs[0].len + f.len)] + fs[1..]
      else if f.offset > End(fs[0]) then [fs[0]] + [f] + fs[1..]
      else [f] + fs
  {
    if fs != [] {
      assert !Meet(f, fs[0]);
      assert fs[..0] == [] && fs[..1] == [fs[0]] && fs[0..] == fs;
    }
  }

  ghost predicate SameCover(fs: seq<Interval>, f: Interval, r: seq<Interval>) {
    forall x: nat :: Covers(r, x) <==> Covers(fs, x) || In(f, x)
  }

  lemma CoversCons(f: Interval, fs: seq<Interval>, x: nat)
    ensures Covers([f] + fs, x) <==> In(f, x) || Covers(fs, x)
  {
    var r := [f] + fs;
    if In(f, x) {
      assert In(r[0], x);
    }
    if Covers(fs, x) {
      var k :| 0 <= k < |fs| && In(fs[k], x);
      assert In(r[k + 1], x);
    }
    if Covers(r, x) {
      var k :| 0 <= k < |r| && In(r[k], x);
      assert k > 0 ==> In(fs[k - 1], x);
    }
  }

  lemma ApartCons(f: Interval, fs: seq<Interval>)
    ensures Apart([f] + fs) <==> f.len > 0 && Apart(fs) && forall k | 0 <= k < |fs| :: !Meet(f, fs[k])
  {
    var r := [f] + fs;
    if Apart(r) {
      assert r[0] == f;
      forall k | 0 <= k < |fs| ensures !Meet(f, fs[k]) && fs[k].len > 0 {
        assert r[k + 1] == fs[k];
        assert !Meet(r[0], r[k + 1]);
      }
      forall i, j | 0 <= i < j < |fs| ensures !Meet(fs[i], fs[j]) {
        assert !Meet(r[i + 1], r[j + 1]);
      }
    }
  }

  /** `m` is the union of the adjoining `a` and `f`. */
  predicate Joins(m: Interval, a: Interval, f: Interval) {
    m.len == a.len + f.len && ((m.offset == a.offset && End(a) == f.offset) || (m.offset == f.offset && End(f) == a.offset))
  }

  /** Replacing the first entry by its union with a new fragment. */
  lemma JoinFirst(m: Interval, a: Interval, f: Interval, rest: seq<Interval>)
    requires Apart([a] + rest) && f.len > 0 && !Overlap([a] + rest, f) && Joins(m, a, f)
    ensures SameCover([a] + rest, f, [m] + rest) && Apart([m] + rest)
  {
    hide Apart, Covers;
    ApartCons(a, rest);
    forall k | 0 <= k < |rest| ensures !Meet(m, rest[k]) && !Meet(f, rest[k]) {
      assert !Meet(f, ([a] + rest)[k + 1]);
      PositiveLength(rest, k);
    }
    ApartCons(m, rest);
    forall x: nat ensures Covers([m] + rest, x) <==> Covers([a] + rest, x) || In(f, x) {
      CoversCons(m, rest, x);
      CoversCons(a, rest, x);
    }
  }

  lemma PositiveLength(fs: seq<Interval>, k: nat)
    requires Apart(fs) && k < |fs|
    ensures fs[k].len > 0
  {
  }

  /** Putting a new fragment before or after the first entry. */
  lemma PutFirst(f: Interval, fs: seq<Interval>)
    requires Apart(fs) && f.len > 0 && !Overlap(fs, f)
    ensures SameCover(fs, f, [f] + fs) && Apart([f] + fs)
  {
    hide Apart, Covers;
    ApartCons(f, fs);
    forall x: nat ensures Covers([f] + fs, x) <==> Covers(fs, x) || In(f, x) {
      CoversCons(f, fs, x);
    }
  }

  lemma SwapFirst(a: Interval, f: Interval, rest: seq<Interval>)
    requires Apart([f] + ([a] + rest))
    ensures Apart([a] + ([f] + rest)) && forall x: nat :: Covers([a] + ([f] + rest), x) <==> Covers([f] + ([a] + rest), x)
  {
    hide Apart, Covers;
    ApartCons(f, [a] + rest);
    ApartCons(a, rest);
    assert ([a] + rest)[0] == a;
    forall k | 0 <= k < |rest| ensures !Meet(f, rest[k]) {
      assert ([a] + rest)[k + 1] == rest[k];
    }
    ApartCons(f, rest);
    ApartCons(a, [f] + rest);
    forall x: nat ensures Covers([a] + ([f] + rest), x) <==> Covers([f] + ([a] + rest), x) {
      CoversCons(a, [f] + rest, x);
      CoversCons(f, rest, x);
      CoversCons(f, [a] + rest, x);
      CoversCons(a, rest, x);
    }
  }

  /** Recording a fragment that overlaps none adds exactly its bytes, and the entries of the list
      stay apart. */
  lemma InsertExact(fs: seq<Interval>, f: Interval)
    requires Apart(fs) && f.len > 0 && !Overlap(fs, f)
    ensures SameCover(fs, f, Insert(fs, 0, f)) && Apart(Insert(fs, 0, f)) && Insert(fs, 0, f) != []
  {
    hide Insert, Apart, SameCover, Overlap;
    InsertIsLocal(fs, f);
    PutFirst(f, fs);
    if fs == [] {
      assert [f] + fs == [f];
    } else {
      var a, rest := fs[0], fs[1..];
      assert fs == [a] + rest;
      if End(a) == f.offset && 1 < |fs| && End(f) == fs[1].offset {
        InsertGlue(fs, f);
      } else if End(a) == f.offset {
        JoinFirst(Interval(a.offset, a.len + f.len), a, f, rest);
      } else if End(f) == a.offset {
        JoinFirst(Interval(f.offset, a.len + f.len), a, f, rest);
      } else if f.offset > End(a) {
        SwapFirst(a, f, rest);
        assert [a] + [f] + rest == [a] + ([f] + rest);
        SameCoverVia(fs, f, [f] + fs, [a] + ([f] + rest));
      }
    }
  }

  lemma SameCoverVia(fs: seq<Interval>, f: Interval, r: seq<Interval>, t: seq<Interval>)
    requires SameCover(fs, f, r) && forall x: nat :: Covers(t, x) <==> Covers(r, x)
    ensures SameCover(fs, f, t)
  {
  }

  /** The new fragment fills the hole between the first two entries. */
  lemma InsertGlue(fs: seq<Interval>, f: Interval)
    requires Apart(fs) && f.len > 0 && !Overlap(fs, f) && |fs| > 1 && End(fs[0]) == f.offset && End(f) == fs[1].offset
    ensures var r := [Interval(fs[0].offset, fs[0].len + f.len + fs[1].len)] + fs[2..]; SameCover(fs, f, r) && Apart(r)
  {
    hide Apart, Covers, Overlap;
    var a, b, rest := fs[0], fs[1], fs[2..];
    var m, n := Interval(a.offset, a.len + f.len), Interval(a.offset, a.len + f.len + b.len);
    assert fs == [a] + ([b] + rest) && fs[1..] == [b] + rest;
    JoinFirst(m, a, f, [b] + rest);
    MergedApart(n, m, b, rest);
    forall x: nat ensures Covers([n] + rest, x) <==> Covers(fs, x) || In(f, x) {
      CoversCons(n, rest, x);
      CoversCons(m, [b] + rest, x);
      CoversCons(b, rest, x);
    }
  }

  lemma MergedApart(n: Interval, m: Interval, b: Interval, rest: seq<Interval>)
    requires Apart([m] + ([b] + rest)) && n.offset == m.offset && End(m) == b.offset && n.len == m.len + b.len
    ensures Apart([n] + rest)
  {
    hide Apart;
    ApartCons(m, [b] + rest);
    ApartCons(b, rest);
    forall k | 0 <= k < |rest| ensures !Meet(n, rest[k]) {
      assert ([b] + rest)[k + 1] == rest[k];
      PositiveLength(rest, k);
    }
    ApartCons(n, rest);
  }

  // ---- partial datagrams ---------------------------------------------------

  /** A fragment as it arrived. */
  datatype Piece = Piece(offset: nat, data: seq<byte>)

  function Span(p: Piece): Interval { Interval(p.offset, |p.data|) }

  /** struct fwnet_partial_datagram; `received` records the fragments it was made of. */
  datatype Partial = Partial(
    dgl: nat, etherType: nat, size: nat, frags: seq<Interval>, buf: seq<byte>, received: seq<Piece>)

  function Write(buf: seq<byte>, p: Piece): (r: seq<byte>)
    requires p.offset + |p.data| <= |buf|
    ensures |r| == |buf|
  {
    buf[..p.offset] + p.data + buf[p.offset + |p.data|..]
  }

  function Blank(n: nat): (r: seq<byte>)
    ensures |r| == n
  {
    seq(n, i => 0)
  }

  predicate Fits(size: nat, p: Piece) { p.data != [] && p.offset + |p.data| <= size }

  ghost predicate Holds(buf: seq<byte>, p: Piece) {
    p.offset + |p.data| <= |buf| && forall i | 0 <= i < |p.data| :: buf[p.offset + i] == p.data[i]
  }

  ghost predicate CoveredBy(ps: seq<Piece>, x: nat) { exists k :: 0 <= k < |ps| && In(Span(ps[k]), x) }

  ghost predicate PiecesOk(d: Partial) {
    && (forall k | 0 <= k < |d.received| :: Fits(d.size, d.received[k]) && Holds(d.buf, d.received[k]))
    && (forall i, j | 0 <= i < j < |d.received| :: !Meet(Span(d.received[i]), Span(d.received[j])))
  }

  ghost predicate PartialOk(d: Partial) {
    && |d.buf| == d.size && d.frags != [] && Apart(d.frags) && PiecesOk(d)
    && (forall x: nat :: Covers(d.frags, x) <==> CoveredBy(d.received, x))
    && (forall x: nat | Covers(d.frags, x) :: x < d.size)
  }

  /** fwnet_pd_new */
  function NewPartial(dgl: nat, size: nat, p: Piece): Partial
    requires Fits(size, p)
  {
    Partial(dgl, 0, size, Insert([], 0, Span(p)), Write(Blank(size), p), [p])
  }

  /** fwnet_pd_update */
  function Updated(d: Partial, p: Piece): Partial
    requires Fits(d.size, p) && |d.buf| == d.size
  {
    d.(frags := Insert(d.frags, 0, Span(p)), buf := Write(d.buf, p), received := d.received + [p])
  }

  /** fwnet_pd_is_complete */
  predicate IsComplete(d: Partial)
    requires d.frags != []
  {
    d.frags[0].len == d.size
  }

  lemma NewPartialOk(dgl: nat, size: nat, p: Piece)
    requires Fits(size, p)
    ensures PartialOk(NewPartial(dgl, size, p))
  {
    var d := NewPartial(dgl, size, p);
    assert d.frags == [Span(p)] && d.received == [p];
    forall x: nat ensures Covers(d.frags, x) <==> In(Span(p), x) {
      assert Covers(d.frags, x) ==> In(d.frags[0], x);
      assert In(d.frags[0], x) ==> Covers(d.frags, x);
    }
    forall x: nat ensures CoveredBy(d.received, x) <==> In(Span(p), x) {
      assert In(Span(d.received[0]), x) ==> CoveredBy(d.received, x);
    }
  }

  lemma PieceOverlaps(d: Partial, p: Piece, k: nat, x: nat)
    requires PartialOk(d) && k < |d.received| && In(Span(d.received[k]), x) && In(Span(p), x)
    ensures Overlap(d.frags, Span(p))
  {
    assert Covers(d.frags, x);
    var i :| 0 <= i < |d.frags| && In(d.frags[i], x);
    assert Meet(Span(p), d.frags[i]);
  }

  /** A fragment that overlaps no interval overlaps none of the fragments behind them. */
  lemma OverlapsNoPiece(d: Partial, p: Piece, k: nat)
    requires PartialOk(d) && Fits(d.size, p) && !Overlap(d.frags, Span(p)) && k < |d.received|
    ensures !Meet(Span(d.received[k]), Span(p))
  {
    hide Overlap;
    var q := d.received[k];
    if Meet(Span(q), Span(p)) {
      PieceOverlaps(d, p, k, if q.offset < p.offset then p.offset else q.offset);
    }
  }

  lemma WriteKeeps(buf: seq<byte>, p: Piece, q: Piece)
    requires p.offset + |p.data| <= |buf| && Holds(buf, q) && !Meet(Span(q), Span(p)) && p.data != [] && q.data != []
    ensures Holds(Write(buf, p), q)
  {
  }

  lemma UpdatedPieces(d: Partial, p: Piece)
    requires PartialOk(d) && Fits(d.size, p) && !Overlap(d.frags, Span(p))
    ensures PiecesOk(Updated(d, p))
  {
    var e := Updated(d, p);
    var n := |d.received|;
    forall k | 0 <= k < n ensures !Meet(Span(d.received[k]), Span(p)) && Holds(e.buf, d.received[k]) {
      OverlapsNoPiece(d, p, k);
      WriteKeeps(d.buf, p, d.received[k]);
    }
    hide Insert;
    assert Holds(e.buf, p);
    forall i, j | 0 <= i < j < |e.received| ensures !Meet(Span(e.received[i]), Span(e.received[j])) {
      assert e.received[i] == d.received[i];
    }
  }

  lemma UpdatedOk(d: Partial, p: Piece)
    requires PartialOk(d) && Fits(d.size, p) && !Overlap(d.frags, Span(p))
    ensures PartialOk(Updated(d, p))
  {
    hide Insert, PiecesOk, Apart, Overlap, Covers;
    var e := Updated(d, p);
    UpdatedPieces(d, p);
    InsertExact(d.frags, Span(p));
    forall x: nat ensures CoveredBy(e.received, x) <==> CoveredBy(d.received, x) || In(Span(p), x) {
      PiecesStep(d.received, p, x);
    }
  }

  lemma PiecesStep(ps: seq<Piece>, p: Piece, x: nat)
    ensures CoveredBy(ps + [p], x) <==> CoveredBy(ps, x) || In(Span(p), x)
  {
    var r := ps + [p];
    if CoveredBy(ps, x) {
      var k :| 0 <= k < |ps| && In(Span(ps[k]), x);
      assert In(Span(r[k]), x);
    }
    if In(Span(p), x) {
      assert In(Span(r[|ps|]), x);
    }
  }

  /** Completion is reported only if fragments that do not overlap cover every byte, and the
      buffer holds what each of them said. */
  lemma CompleteMeans(d: Partial)
    requires PartialOk(d) && IsComplete(d)
    ensures forall x: nat :: x < d.size ==> CoveredBy(d.received, x)
    ensures PiecesOk(d)
  {
    var f := d.frags[0];
    if d.size > 0 {
      assert In(f, End(f) - 1);
      assert Covers(d.frags, End(f) - 1);
      forall x: nat | x < d.size ensures CoveredBy(d.received, x) {
        assert In(f, x);
        assert Covers(d.frags, x);
      }
    }
  }

  // ---- the partial datagrams of a peer -------------------------------------

  /** A packet after its header was taken apart. */
  datatype Packet =
    | Whole(etherType: nat, data: seq<byte>)
    | Fragment(isFirst: bool, etherType: nat, dgl: nat, size: nat, piece: Piece)

  datatype Delivery = Delivery(etherType: nat, data: seq<byte>)

  datatype PeerState = PeerState(pds: seq<Partial>, pdgSize: nat)

  /** fwnet_pd_find */
  function Find(pds: seq<Partial>, dgl: nat): (r: Option<nat>)
    ensures r.Some? ==> r.value < |pds| && pds[r.value].dgl == dgl
    ensures r.None? ==> forall k | 0 <= k < |pds| :: pds[k].dgl != dgl
  {
    if pds == [] then None
    else if pds[0].dgl == dgl then Some(0)
    else var r := Find(pds[1..], dgl); if r.None? then None else Some(r.value + 1)
  }

  /** The oldest partial datagrams make room. */
  function Evicted(s: PeerState): PeerState
    decreases s.pdgSize
  {
    if s.pdgSize >= MAX_FRAGMENTS && s.pds != [] then Evicted(PeerState(s.pds[1..], s.pdgSize - 1)) else s
  }

  function Dropped(pds: seq<Partial>, k: nat): seq<Partial>
    requires k < |pds|
  {
    pds[..k] + pds[k + 1..]
  }

  /** The list after a fragment was stored; the datagram it belongs to is the last entry. */
  function Stored(s: PeerState, dgl: nat, size: nat, p: Piece): (r: PeerState)
    requires Fits(size, p)
    ensures r.pds != []
  {
    var k := Find(s.pds, dgl);
    if k.None? then
      var e := Evicted(s);
      PeerState(e.pds + [NewPartial(dgl, size, p)], e.pdgSize + 1)
    else
      var d := s.pds[k.value];
      if Overlap(d.frags, Span(p)) || d.size != size || |d.buf| != d.size then
        PeerState(Dropped(s.pds, k.value) + [NewPartial(dgl, size, p)], s.pdgSize)
      else PeerState(Dropped(s.pds, k.value) + [Updated(d, p)], s.pdgSize)
  }

  /** fwnet_incoming_packet for a known peer, memory being available. */
  function Receive(s: PeerState, pkt: Packet): (PeerState, Option<Delivery>) {
    match pkt
    case Whole(etherType, data) => (s, if data == [] then None else Some(Delivery(etherType, data)))
    case Fragment(isFirst, etherType, dgl, size, p) =>
      if !Fits(size, p) then (s, None) else
      var t := Stored(s, dgl, size, p);
      var n := |t.pds| - 1;
      var d := if isFirst then t.pds[n].(etherType := etherType) else t.pds[n];
      if d.frags != [] && IsComplete(d) then
        (PeerState(t.pds[..n], if t.pdgSize > 0 then t.pdgSize - 1 else 0), Some(Delivery(d.etherType, d.buf)))
      else (t.(pds := t.pds[n := d]), None)
  }

  /** Storing the fragment takes memory: for a new partial datagram or for another interval. */
  predicate NeedsMemory(s: PeerState, dgl: nat, size: nat, p: Piece) {
    var k := Find(s.pds, dgl);
    k.None? ||
    var d := s.pds[k.value];
    Overlap(d.frags, Span(p)) || d.size != size || |d.buf| != d.size || |Insert(d.frags, 0, Span(p))| > |d.frags|
  }

  /** Without memory the partial datagram of the fragment is given up; room has been made for a
      new one all the same. */
  function GivenUp(s: PeerState, dgl: nat): PeerState {
    var k := Find(s.pds, dgl);
    if k.None? then Evicted(s) else PeerState(Dropped(s.pds, k.value), if s.pdgSize > 0 then s.pdgSize - 1 else 0)
  }

  /** fwnet_incoming_packet for a known peer when no memory is available. */
  function ReceiveStarved(s: PeerState, pkt: Packet): (PeerState, Option<Delivery>) {
    match pkt
    case Whole(_, _) => (s, None)
    case Fragment(_, _, dgl, size, p) =>
      if !Fits(size, p) then (s, None)
      else if NeedsMemory(s, dgl, size, p) then (GivenUp(s, dgl), None)
      else Receive(s, pkt)
  }

  ghost predicate PeerOk(s: PeerState) {
    && s.pdgSize == |s.pds| <= MAX_FRAGMENTS
    && (forall k | 0 <= k < |s.pds| :: PartialOk(s.pds[k]))
    && (forall i, j | 0 <= i < j < |s.pds| :: s.pds[i].dgl != s.pds[j].dgl)
  }

  lemma EvictedOk(s: PeerState)
    requires PeerOk(s)
    ensures PeerOk(Evicted(s)) && |Evicted(s).pds| < MAX_FRAGMENTS
    ensures forall k | 0 <= k < |Evicted(s).pds| :: Evicted(s).pds[k] in s.pds
    ensures |s.pds| < MAX_FRAGMENTS ==> Evicted(s) == s
    decreases s.pdgSize
  {
    hide PartialOk;
    if s.pdgSize >= MAX_FRAGMENTS {
      EvictedOk(PeerState(s.pds[1..], s.pdgSize - 1));
    }
  }

  lemma AppendOk(pds: seq<Partial>, d: Partial)
    requires |pds| < MAX_FRAGMENTS && PeerOk(PeerState(pds, |pds|)) && PartialOk(d)
    requires forall k | 0 <= k < |pds| :: pds[k].dgl != d.dgl
    ensures PeerOk(PeerState(pds + [d], |pds| + 1))
  {
    hide PartialOk;
  }

  lemma DroppedOk(s: PeerState, k: nat)
    requires PeerOk(s) && k < |s.pds|
    ensures PeerOk(PeerState(Dropped(s.pds, k), |s.pds| - 1)) && |Dropped(s.pds, k)| == |s.pds| - 1
    ensures forall i | 0 <= i < |s.pds| - 1 :: Dropped(s.pds, k)[i].dgl != s.pds[k].dgl
  {
    hide PartialOk;
    var r := Dropped(s.pds, k);
    forall i | 0 <= i < |r| ensures r[i] == s.pds[if i < k then i else i + 1] {
    }
  }

  lemma GivenUpOk(s: PeerState, dgl: nat)
    requires PeerOk(s)
    ensures PeerOk(GivenUp(s, dgl))
  {
    hide PartialOk;
    EvictedOk(s);
    if Find(s.pds, dgl).Some? {
      DroppedOk(s, Find(s.pds, dgl).value);
    }
  }

  /** Lack of memory keeps the list consistent, and never delivers anything that would not have
      been delivered otherwise. */
  lemma StarvedOk(s: PeerState, pkt: Packet)
    requires PeerOk(s)
    ensures PeerOk(ReceiveStarved(s, pkt).0)
    ensures ReceiveStarved(s, pkt).1.Some? ==> ReceiveStarved(s, pkt) == Receive(s, pkt)
    ensures forall d | d in ReceiveStarved(s, pkt).0.pds :: d in s.pds || d in Receive(s, pkt).0.pds
  {
    hide PeerOk, Receive, NeedsMemory;
    ReceiveOk(s, pkt);
    if pkt.Fragment? {
      GivenUpOk(s, pkt.dgl);
      GivenUpIn(s, pkt.dgl);
    }
  }

  lemma GivenUpIn(s: PeerState, dgl: nat)
    requires PeerOk(s)
    ensures forall d | d in GivenUp(s, dgl).pds :: d in s.pds
  {
    hide PartialOk;
    EvictedOk(s);
  }

  lemma StoredOk(s: PeerState, dgl: nat, size: nat, p: Piece)
    requires PeerOk(s) && Fits(size, p)
    ensures PeerOk(Stored(s, dgl, size, p))
  {
    hide PartialOk, Overlap, NewPartial, Updated;
    var k := Find(s.pds, dgl);
    NewPartialOk(dgl, size, p);
    NewPartialIs(dgl, size, p);
    if k.None? {
      EvictedOk(s);
      AppendOk(Evicted(s).pds, NewPartial(dgl, size, p));
    } else {
      var d := s.pds[k.value];
      DroppedOk(s, k.value);
      if Overlap(d.frags, Span(p)) || d.size != size || |d.buf| != d.size {
        AppendOk(Dropped(s.pds, k.value), NewPartial(dgl, size, p));
      } else {
        UpdatedOk(d, p);
        UpdatedIs(d, p);
        AppendOk(Dropped(s.pds, k.value), Updated(d, p));
      }
    }
  }

  lemma NewPartialIs(dgl: nat, size: nat, p: Piece)
    requires Fits(size, p)
    ensures NewPartial(dgl, size, p).dgl == dgl
  {
  }

  lemma UpdatedIs(d: Partial, p: Piece)
    requires Fits(d.size, p) && |d.buf| == d.size
    ensures Updated(d, p).dgl == d.dgl
  {
  }

  /** The receiver's bookkeeping survives any packet: pdg_size is the length of the list and at
      most 30, and what is delivered is a datagram covered by fragments that do not overlap. */
  lemma ReceiveOk(s: PeerState, pkt: Packet)
    requires PeerOk(s)
    ensures PeerOk(Receive(s, pkt).0)
    ensures pkt.Fragment? && Receive(s, pkt).1.Some? ==> Fits(pkt.size, pkt.piece)
    ensures pkt.Fragment? && Receive(s, pkt).1.Some? ==>
      var t := Stored(s, pkt.dgl, pkt.size, pkt.piece); var d := t.pds[|t.pds| - 1];
      && Receive(s, pkt).1.value.data == d.buf && |d.buf| == d.size
      && (forall x: nat :: x < d.size ==> CoveredBy(d.received, x)) && PiecesOk(d)
  {
    hide Stored, PiecesOk;
    if pkt.Fragment? && Fits(pkt.size, pkt.piece) {
      StoredOk(s, pkt.dgl, pkt.size, pkt.piece);
      var t := Stored(s, pkt.dgl, pkt.size, pkt.piece);
      var n := |t.pds| - 1;
      var d := if pkt.isFirst then t.pds[n].(etherType := pkt.etherType) else t.pds[n];
      EtherTypeFree(t.pds[n], d.etherType);
      hide PartialOk;
      ReplaceLast(t, d);
      FragsExist(d);
      if IsComplete(d) {
        CompleteMeans(d);
        SamePieces(t.pds[n], d);
      }
    }
  }

  lemma FragsExist(d: Partial)
    requires PartialOk(d)
    ensures d.frags != [] && |d.buf| == d.size
  {
  }

  lemma SamePieces(d: Partial, e: Partial)
    requires e == d.(etherType := e.etherType)
    ensures PiecesOk(d) <==> PiecesOk(e)
  {
  }

  lemma EtherTypeFree(d: Partial, etherType: nat)
    requires PartialOk(d)
    ensures PartialOk(d.(etherType := etherType))
  {
    SamePieces(d, d.(etherType := etherType));
    hide PiecesOk;
  }

  lemma ReplaceLast(t: PeerState, d: Partial)
    requires PeerOk(t) && t.pds != [] && PartialOk(d) && d.dgl == t.pds[|t.pds| - 1].dgl
    ensures PeerOk(t.(pds := t.pds[|t.pds| - 1 := d]))
    ensures PeerOk(PeerState(t.pds[..|t.pds| - 1], t.pdgSize - 1))
  {
    hide PartialOk;
  }

  /** Out of order, completion can be missed: after bytes 0, 2, 3 and 1 of a datagram of four all
      have arrived, but the list is left with three entries. */
  lemma OrderMatters()
    ensures var fs := Insert(Insert(Insert(Insert([], 0, Interval(0, 1)), 0, Interval(2, 1)), 0, Interval(3, 1)), 0, Interval(1, 1));
      fs == [Interval(0, 2), Interval(3, 1), Interval(2, 1)]
  {
    var a := Insert([], 0, Interval(0, 1));
    assert a == [Interval(0, 1)];
    var b := Insert(a, 0, Interval(2, 1));
    assert b == [Interval(0, 1), Interval(2, 1)];
    var c := Insert(b, 0, Interval(3, 1));
    assert c == [Interval(0, 1), Interval(3, 1), Interval(2, 1)];
  }
}
