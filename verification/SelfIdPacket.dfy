/** Self-ID packets of IEEE 1394 PHYs: field layout, the sequence enumerator and
    an independent encoder.

    A PHY reports itself with one to four 32-bit quadlets.  Quadlet zero carries
    the PHY's properties and three port statuses, every further (extended) quadlet
    carries a sequence number and eight port statuses.
 */
module SelfIdPacket {
  import opened Basics
  import opened Arith

  datatype Status = Absent | NotConnected | Parent | Child

  /** What one PHY reports.  `ports` has the full capacity of its quadlets. */
  datatype SelfId = SelfId(
    phy: nat, linkOn: bool, gap: nat, speed: nat, contender: bool, power: nat,
    initiatedReset: bool, ports: seq<Status>)

  predicate Encodable(r: SelfId) {
    && r.phy < 64 && r.gap < 64 && r.speed < 4 && r.power < 8
    && (|r.ports| == 3 || |r.ports| == 11 || |r.ports| == 19 || |r.ports| == 27)
  }

  // ---- field getters -------------------------------------------------------

  function Bit(q: u32, weight: nat): bool
    requires weight > 0
  {
    q / weight % 2 == 1
  }

  function PhyId(q: u32): nat { q / 0x100_0000 % 64 }
  predicate Extended(q: u32) { Bit(q, 0x80_0000) }
  predicate MorePackets(q: u32) { Bit(q, 1) }
  function Sequence(q: u32): nat { q / 0x10_0000 % 8 }
  predicate LinkActive(q: u32) { Bit(q, 0x40_0000) }
  function GapCount(q: u32): nat { q / 0x1_0000 % 64 }
  function SpeedCode(q: u32): nat { q / 0x4000 % 4 }
  predicate Contender(q: u32) { Bit(q, 0x800) }
  function PowerClass(q: u32): nat { q / 0x100 % 8 }
  predicate InitiatedReset(q: u32) { Bit(q, 2) }

  function Capacity(quadlets: nat): int { quadlets * 8 - 5 }

  /** `1 << shift` for the shift of a port's slot within its quadlet. */
  function SlotWeight(slot: nat): (w: nat)
    requires slot < 8
    ensures w > 0
  {
    if slot == 0 then 0x1_0000 else if slot == 1 then 0x4000 else
    if slot == 2 then 0x1000 else if slot == 3 then 0x400 else
    if slot == 4 then 0x100 else if slot == 5 then 0x40 else
    if slot == 6 then 0x10 else 4
  }

  function StatusOf(code: nat): Status
    requires code < 4
  {
    if code == 0 then Absent else if code == 1 then NotConnected else
    if code == 2 then Parent else Child
  }

  function Code(s: Status): (c: nat)
    ensures c < 4 && StatusOf(c) == s
  {
    match s case Absent => 0 case NotConnected => 1 case Parent => 2 case Child => 3
  }

  function PortStatus(s: seq<u32>, port: nat): Status {
    var index, slot := (port + 5) / 8, (port + 5) % 8;
    if index < |s| && index < 4 then StatusOf(s[index] / SlotWeight(slot) % 4) else Absent
  }

  // ---- the sequence enumerator ---------------------------------------------

  /** The first `n` quadlets of `q` are one complete self-ID sequence. */
  predicate IsSequence(q: seq<u32>, n: nat) {
    && 1 <= n <= 4 && n <= |q|
    && (forall k :: 0 <= k < n - 1 ==> MorePackets(q[k]))
    && !MorePackets(q[n - 1])
    && (forall k :: 1 <= k < n ==> Extended(q[k]) && Sequence(q[k]) == k - 1)
  }

  datatype Found = NoData | ProtocolError | Quadlets(s: seq<u32>)

  class Enumerator {
    var rest: seq<u32>   // what `cursor` still points at; its length is quadlet_count

    constructor (q: seq<u32>)
      ensures rest == q
    {
      rest := q;
    }

    /** Hands out the next sequence, or leaves the cursor alone on an error. */
    method Next() returns (r: Found)
      modifies this
      ensures r.NoData? <==> old(rest) == []
      ensures r.Quadlets? ==> IsSequence(old(rest), |r.s|) && old(rest) == r.s + rest
      ensures r.Quadlets? <==> exists n :: IsSequence(old(rest), n)
      ensures !r.Quadlets? ==> rest == old(rest)
    {
      if |rest| == 0 {
        return NoData;
      }
      var count := 1;
      var quadlet := rest[0];
      var sequence := 0;
      while MorePackets(quadlet)
        invariant 1 <= count <= 4 && count <= |rest| && rest == old(rest)
        invariant quadlet == rest[count - 1] && sequence == count - 1
        invariant forall k :: 0 <= k < count - 1 ==> MorePackets(rest[k])
        invariant forall k :: 1 <= k < count ==> Extended(rest[k]) && Sequence(rest[k]) == k - 1
        decreases 4 - count
      {
        if count >= |rest| || count >= 4 {
          return ProtocolError;
        }
        count := count + 1;
        quadlet := rest[count - 1];
        if !Extended(quadlet) || sequence != Sequence(quadlet) {
          return ProtocolError;
        }
        sequence := sequence + 1;
      }
      assert IsSequence(rest, count);
      r := Quadlets(rest[..count]);
      rest := rest[count..];
    }
  }

  lemma SequenceNotLonger(q: seq<u32>, m: nat, n: nat)
    requires IsSequence(q, m) && 0 < m < n <= |q|
    ensures !IsSequence(q, n)
  {
    assert !MorePackets(q[m - 1]);
  }

  lemma SequenceUnique(q: seq<u32>, m: nat, n: nat)
    requires IsSequence(q, m) && IsSequence(q, n)
    ensures m == n
  {
    if m < n {
      SequenceNotLonger(q, m, n);
    } else if n < m {
      SequenceNotLonger(q, n, m);
    }
  }

  // ---- decoding ------------------------------------------------------------

  function Decode(s: seq<u32>): SelfId
    requires 1 <= |s| <= 4
  {
    var q := s[0];
    SelfId(PhyId(q), LinkActive(q), GapCount(q), SpeedCode(q), Contender(q), PowerClass(q),
           InitiatedReset(q), seq(|s| * 8 - 5, i requires 0 <= i => PortStatus(s, i)))
  }

  /** Length of the sequence at the head of a non-empty stream; 0 if there is none. */
  function HeadLength(q: seq<u32>): (n: nat)
    ensures n > 0 ==> IsSequence(q, n)
    ensures n == 0 ==> forall m :: !IsSequence(q, m)
  {
    if IsSequence(q, 1) then 1 else if IsSequence(q, 2) then 2 else
    if IsSequence(q, 3) then 3 else if IsSequence(q, 4) then 4 else 0
  }

  /** All records of a stream, or None if some sequence is inconsistent. */
  function Records(q: seq<u32>): Option<seq<SelfId>>
    decreases |q|
  {
    if q == [] then Some([]) else
    var n := HeadLength(q);
    if n == 0 then None else
    var tail := Records(q[n..]);
    if tail.None? then None else Some([Decode(q[..n])] + tail.value)
  }

  // ---- an independent encoder ----------------------------------------------

  function B(b: bool): nat { if b then 1 else 0 }

  function ZeroQuadlet(r: SelfId, more: bool): u32
    requires Encodable(r)
  {
    2 * 0x4000_0000 + r.phy * 0x100_0000 + B(r.linkOn) * 0x40_0000 + r.gap * 0x1_0000
    + r.speed * 0x4000 + B(r.contender) * 0x800 + r.power * 0x100
    + Code(r.ports[0]) * 0x40 + Code(r.ports[1]) * 0x10 + Code(r.ports[2]) * 4
    + B(r.initiatedReset) * 2 + B(more)
  }

  /** Extended quadlet `n` (counting from 0) holding eight statuses. */
  function ExtQuadlet(phy: nat, n: nat, p: seq<Status>, more: bool): u32
    requires phy < 64 && n < 8 && |p| == 8
  {
    2 * 0x4000_0000 + phy * 0x100_0000 + 0x80_0000 + n * 0x10_0000
    + Code(p[0]) * 0x1_0000 + Code(p[1]) * 0x4000 + Code(p[2]) * 0x1000 + Code(p[3]) * 0x400
    + Code(p[4]) * 0x100 + Code(p[5]) * 0x40 + Code(p[6]) * 0x10 + Code(p[7]) * 4 + B(more)
  }

  function Encode(r: SelfId): (s: seq<u32>)
    requires Encodable(r)
    ensures |s| * 8 - 5 == |r.ports| && 1 <= |s| <= 4
  {
    var n := (|r.ports| + 5) / 8;
    [ZeroQuadlet(r, n > 1)]
    + seq(n - 1, k requires 0 <= k < n - 1 => ExtQuadlet(r.phy, k, r.ports[3 + 8 * k..11 + 8 * k], k + 2 < n))
  }

  lemma ZeroFields(r: SelfId, more: bool)
    requires Encodable(r)
    ensures var q := ZeroQuadlet(r, more);
      && PhyId(q) == r.phy && LinkActive(q) == r.linkOn && GapCount(q) == r.gap
      && SpeedCode(q) == r.speed && Contender(q) == r.contender && PowerClass(q) == r.power
      && InitiatedReset(q) == r.initiatedReset && MorePackets(q) == more
  {
    var q := ZeroQuadlet(r, more);
    var a0 := B(more);
    var a1 := a0 + B(r.initiatedReset) * 2;
    var a2 := a1 + Code(r.ports[0]) * 0x40 + Code(r.ports[1]) * 0x10 + Code(r.ports[2]) * 4;
    var a8 := a2 + r.power * 0x100;
    var a11 := a8 + B(r.contender) * 0x800;
    var a14 := a11 + r.speed * 0x4000;
    var a16 := a14 + r.gap * 0x1_0000;
    var a22 := a16 + B(r.linkOn) * 0x40_0000;
    var h24 := 2 * 64 + r.phy;
    var h22 := h24 * 4 + B(r.linkOn);
    var h16 := h22 * 64 + r.gap;
    var h14 := h16 * 4 + r.speed;
    var h8 := (h14 * 8 + B(r.contender)) * 8 + r.power;
    var h2 := h8 * 64 + Code(r.ports[0]) * 16 + Code(r.ports[1]) * 4 + Code(r.ports[2]);
    FieldAt(q, 2, r.phy, a22, 0x100_0000, 64);
    FieldAt(q, h24 * 2, B(r.linkOn), a16, 0x40_0000, 2);
    FieldAt(q, h22, r.gap, a14, 0x1_0000, 64);
    FieldAt(q, h16, r.speed, a11, 0x4000, 4);
    FieldAt(q, h14 * 4, B(r.contender), a8, 0x800, 2);
    FieldAt(q, h14 * 8 + B(r.contender), r.power, a2, 0x100, 8);
    FieldAt(q, h2, B(r.initiatedReset), a0, 2, 2);
    FieldAt(q, h2 * 2 + B(r.initiatedReset), a0, 0, 1, 2);
  }

  lemma ZeroPorts(r: SelfId, more: bool, i: nat)
    requires Encodable(r) && i < 3
    ensures ZeroQuadlet(r, more) / SlotWeight(i + 5) % 4 == Code(r.ports[i])
  {
    var q := ZeroQuadlet(r, more);
    var a := B(r.initiatedReset) * 2 + B(more);
    var h := 2 * 0x40_0000 + r.phy * 0x1_0000 + B(r.linkOn) * 0x4000 + r.gap * 0x100
      + r.speed * 0x40 + B(r.contender) * 8 + r.power;
    var c0, c1, c2 := Code(r.ports[0]), Code(r.ports[1]), Code(r.ports[2]);
    FieldAt(q, h, c0, c1 * 0x10 + c2 * 4 + a, 0x40, 4);
    FieldAt(q, h * 4 + c0, c1, c2 * 4 + a, 0x10, 4);
    FieldAt(q, h * 16 + c0 * 4 + c1, c2, a, 4, 4);
  }

  lemma ExtFields(phy: nat, n: nat, p: seq<Status>, more: bool)
    requires phy < 64 && n < 8 && |p| == 8
    ensures var q := ExtQuadlet(phy, n, p, more); Extended(q) && Sequence(q) == n && MorePackets(q) == more
  {
    var q := ExtQuadlet(phy, n, p, more);
    var a := q - 2 * 0x4000_0000 - phy * 0x100_0000 - 0x80_0000 - n * 0x10_0000;
    var b := Code(p[0]) * 0x8000 + Code(p[1]) * 0x2000 + Code(p[2]) * 0x800 + Code(p[3]) * 0x200
      + Code(p[4]) * 0x80 + Code(p[5]) * 0x20 + Code(p[6]) * 8 + Code(p[7]) * 2;
    FieldAt(q, 128 + phy, 1, n * 0x10_0000 + a, 0x80_0000, 2);
    FieldAt(q, (128 + phy) * 2 + 1, n, a, 0x10_0000, 8);
    FieldAt(q, ((128 + phy) * 16 + 8 + n) * 0x8_0000 + b, B(more), 0, 1, 2);
  }

  lemma ExtPorts(phy: nat, n: nat, p: seq<Status>, more: bool, slot: nat)
    requires phy < 64 && n < 8 && |p| == 8 && slot < 8
    ensures ExtQuadlet(phy, n, p, more) / SlotWeight(slot) % 4 == Code(p[slot])
  {
    var q := ExtQuadlet(phy, n, p, more);
    var c0, c1, c2, c3 := Code(p[0]), Code(p[1]), Code(p[2]), Code(p[3]);
    var c4, c5, c6, c7 := Code(p[4]), Code(p[5]), Code(p[6]), Code(p[7]);
    var a7 := B(more);
    var a6 := a7 + c7 * 4;
    var a5 := a6 + c6 * 0x10;
    var a4 := a5 + c5 * 0x40;
    var a3 := a4 + c4 * 0x100;
    var a2 := a3 + c3 * 0x400;
    var a1 := a2 + c2 * 0x1000;
    var a0 := a1 + c1 * 0x4000;
    var h0 := ((128 + phy) * 16 + 8 + n) * 4;
    var h1 := h0 * 4 + c0;
    var h2 := h1 * 4 + c1;
    var h3 := h2 * 4 + c2;
    var h4 := h3 * 4 + c3;
    var h5 := h4 * 4 + c4;
    var h6 := h5 * 4 + c5;
    if
    case slot == 0 => FieldAt(q, h0, c0, a0, 0x1_0000, 4);
    case slot == 1 => FieldAt(q, h1, c1, a1, 0x4000, 4);
    case slot == 2 => FieldAt(q, h2, c2, a2, 0x1000, 4);
    case slot == 3 => FieldAt(q, h3, c3, a3, 0x400, 4);
    case slot == 4 => FieldAt(q, h4, c4, a4, 0x100, 4);
    case slot == 5 => FieldAt(q, h5, c5, a5, 0x40, 4);
    case slot == 6 => FieldAt(q, h6, c6, a6, 0x10, 4);
    case slot == 7 => FieldAt(q, h6 * 4 + c6, c7, a7, 4, 4);
  }

  lemma EncodedPort(r: SelfId, i: nat)
    requires Encodable(r) && i < |r.ports|
    ensures PortStatus(Encode(r), i) == r.ports[i]
  {
    hide ZeroQuadlet, ExtQuadlet, SlotWeight;
    var s := Encode(r);
    if i < 3 {
      ZeroPorts(r, |s| > 1, i);
      assert (i + 5) / 8 == 0 && (i + 5) % 8 == i + 5;
    } else {
      var k, slot := (i + 5) / 8 - 1, (i + 5) % 8;
      ExtPorts(r.phy, k, r.ports[3 + 8 * k..11 + 8 * k], k + 2 < |s|, slot);
      assert s[k + 1] == ExtQuadlet(r.phy, k, r.ports[3 + 8 * k..11 + 8 * k], k + 2 < |s|);
    }
  }

  lemma EncodeRoundTrip(r: SelfId)
    requires Encodable(r)
    ensures Decode(Encode(r)) == r
  {
    var s := Encode(r);
    ZeroFields(r, |s| > 1);
    forall i | 0 <= i < |r.ports| ensures PortStatus(s, i) == r.ports[i] {
      EncodedPort(r, i);
    }
    assert Decode(s).ports == r.ports;
  }

  lemma EncodedHeads(r: SelfId, k: nat)
    requires Encodable(r) && k < |Encode(r)|
    ensures var s := Encode(r);
      && MorePackets(s[k]) == (k + 1 < |s|)
      && (k > 0 ==> Extended(s[k]) && Sequence(s[k]) == k - 1)
  {
    hide ZeroQuadlet, ExtQuadlet, Extended, Sequence, MorePackets;
    var n := |Encode(r)|;
    if k == 0 {
      ZeroFields(r, n > 1);
    } else {
      ExtFields(r.phy, k - 1, r.ports[3 + 8 * (k - 1)..11 + 8 * (k - 1)], k + 1 < n);
    }
  }

  lemma EncodeIsSequence(r: SelfId, rest: seq<u32>)
    requires Encodable(r)
    ensures IsSequence(Encode(r) + rest, |Encode(r)|)
  {
    forall k | 0 <= k < |Encode(r)|
      ensures var q := (Encode(r) + rest)[k];
        && MorePackets(q) == (k + 1 < |Encode(r)|)
        && (k > 0 ==> Extended(q) && Sequence(q) == k - 1)
    {
      EncodedHeads(r, k);
    }
  }

  function EncodeAll(rs: seq<SelfId>): seq<u32>
    requires forall r | r in rs :: Encodable(r)
  {
    if rs == [] then [] else Encode(rs[0]) + EncodeAll(rs[1..])
  }

  /** Every list of encodable reports survives the wire format and the enumerator. */
  lemma {:induction false} StreamRoundTrip(rs: seq<SelfId>)
    requires forall r | r in rs :: Encodable(r)
    ensures Records(EncodeAll(rs)) == Some(rs)
    ensures rs != [] ==> EncodeAll(rs) != []
  {
    hide Encode, Decode, IsSequence, HeadLength, Encodable;
    if rs != [] {
      var s, t := Encode(rs[0]), EncodeAll(rs[1..]);
      StreamRoundTrip(rs[1..]);
      EncodeIsSequence(rs[0], t);
      EncodeRoundTrip(rs[0]);
      HeadLengthIs(s + t, |s|);
      assert (s + t)[..|s|] == s && (s + t)[|s|..] == t;
      assert [rs[0]] + rs[1..] == rs;
    }
  }

  lemma HeadLengthIs(q: seq<u32>, n: nat)
    requires IsSequence(q, n)
    ensures HeadLength(q) == n > 0 && q != []
  {
    SequenceUnique(q, HeadLength(q), n);
  }
}
