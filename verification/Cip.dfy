/** Two-quadlet CIP headers (IEC 61883-1): generation on one side, checks on the other, and the
    data block counter that ties the packets of a stream together. */
module Cip {
  import opened Basics
  import opened Arith

  const FMT_AM: nat := 0x10
  const FDF_NO_DATA: nat := 0xff

  /** What a transmitting stream puts into its headers. */
  datatype Format = Format(sid: nat, dbs: nat, sph: nat, fmt: nat, fdf: nat)

  predicate FormatOk(f: Format) { f.sid < 64 && 0 < f.dbs < 256 && f.sph < 2 && f.fmt < 64 && f.fdf < 256 }

  datatype Header = Header(q0: u32, q1: u32)

  /** generate_cip_header; the fields do not overlap. */
  function Generate(f: Format, dbc: nat, syt: nat): Header
    requires FormatOk(f) && dbc < 256
  {
    Header(f.sid * 0x100_0000 + f.dbs * 0x1_0000 + f.sph * 0x400 + dbc,
           0x8000_0000 + f.fmt * 0x100_0000 + f.fdf * 0x1_0000 + syt % 0x1_0000)
  }

  datatype Flags = Flags(
    withoutEoh: bool, wrongDbs: bool, emptyHasWrongDbc: bool, skipDbcZeroCheck: bool, dbcIsEndEvent: bool,
    dbcIsPayloadQuadlets: bool, unawareSyt: bool, dbcInterval: nat)

  /** A receiving stream. */
  datatype Receiver = Receiver(flags: Flags, dbs: nat, sph: nat, fmt: nat)

  datatype Checked = Accepted(blocks: nat, dbc: nat, syt: Option<nat>) | Rejected(err: int)

  /** Field accessors. */
  predicate Eoh(q: u32) { q / 0x8000_0000 == 1 }
  function Sph(q: u32): nat { q / 0x400 % 2 }
  function Dbs(q: u32): nat { q / 0x1_0000 % 0x100 }
  function Dbc(q: u32): nat { q % 0x100 }
  function Fmt(q: u32): nat { q / 0x100_0000 % 0x40 }
  function Fdf(q: u32): nat { q / 0x1_0000 % 0x100 }
  function Syt(q: u32): nat { q % 0x1_0000 }

  /** Whole data blocks of a payload in bytes. */
  function BlocksIn(payload: nat, dbs: nat): nat
    requires dbs > 0
  {
    payload / 4 / dbs
  }

  /** check_cip_header; `counter` is None as long as no packet was received. */
  function Check(r: Receiver, h: Header, payload: nat, counter: Option<nat>): Checked {
    if (Eoh(h.q0) || !Eoh(h.q1)) && !r.flags.withoutEoh then Rejected(EAGAIN)
    else if Sph(h.q0) != r.sph || Fmt(h.q1) != r.fmt then Rejected(EAGAIN)
    else if payload == 0 || (Fmt(h.q1) == FMT_AM && Fdf(h.q1) == FDF_NO_DATA) then Continuity(r, h, payload, 0, counter)
    else if Dbs(h.q0) == 0 then Rejected(EPROTO)
    else
      var dbs := if r.flags.wrongDbs then r.dbs else Dbs(h.q0);
      if dbs == 0 then Rejected(EPROTO) else Continuity(r, h, payload, BlocksIn(payload, dbs), counter)
  }

  function Interval(r: Receiver, payload: nat, blocks: nat): nat {
    if r.flags.dbcIsPayloadQuadlets then payload / 4
    else if blocks > 0 && r.flags.dbcInterval > 0 then r.flags.dbcInterval else blocks
  }

  function Continuity(r: Receiver, h: Header, payload: nat, blocks: nat, counter: Option<nat>): Checked {
    var dbc := if blocks == 0 && r.flags.emptyHasWrongDbc && counter.Some? then counter.value else Dbc(h.q0);
    var lost :=
      if (dbc == 0 && r.flags.skipDbcZeroCheck) || counter.None? then false
      else if !r.flags.dbcIsEndEvent then dbc != counter.value
      else dbc != (counter.value + Interval(r, payload, blocks)) % 256;
    if lost then Rejected(EIO)
    else Accepted(blocks, dbc, if r.flags.unawareSyt then None else Some(Syt(h.q1)))
  }

  // ---- one header ----------------------------------------------------------

  lemma FieldsOf(f: Format, dbc: nat, syt: nat)
    requires FormatOk(f) && dbc < 256 && syt < 0x1_0000
    ensures var h := Generate(f, dbc, syt);
      && !Eoh(h.q0) && Eoh(h.q1) && Sph(h.q0) == f.sph && Dbs(h.q0) == f.dbs && Dbc(h.q0) == dbc
      && Fmt(h.q1) == f.fmt && Fdf(h.q1) == f.fdf && Syt(h.q1) == syt
  {
    var h := Generate(f, dbc, syt);
    FieldAt(h.q0, f.sid * 0x2000 + f.dbs * 32, f.sph, dbc, 0x400, 2);
    FieldAt(h.q0, f.sid, f.dbs, f.sph * 0x400 + dbc, 0x1_0000, 0x100);
    FieldAt(h.q0, f.sid * 0x1_0000 + f.dbs * 0x100 + f.sph * 4, dbc, 0, 1, 0x100);
    FieldAt(h.q1, 2, f.fmt, f.fdf * 0x1_0000 + syt, 0x100_0000, 0x40);
    FieldAt(h.q1, 0x80 + f.fmt, f.fdf, syt, 0x1_0000, 0x100);
    FieldAt(h.q1, 0x8000 + f.fmt * 0x100 + f.fdf, syt, 0, 1, 0x1_0000);
  }

  /** The receiver is set up for this format and counts like the transmitter. */
  predicate Matches(r: Receiver, f: Format, endEvent: bool) {
    && r.sph == f.sph && r.fmt == f.fmt && !(f.fmt == FMT_AM && f.fdf == FDF_NO_DATA)
    && r.flags.dbcIsEndEvent == endEvent && !r.flags.dbcIsPayloadQuadlets && r.flags.dbcInterval == 0
    && (r.flags.wrongDbs ==> r.dbs == f.dbs)
  }

  function Payload(f: Format, blocks: nat): nat { blocks * 4 * f.dbs }

  /** The format checks let every generated header through and recover the number of blocks;
      what remains is the counter. */
  lemma CheckGenerated(r: Receiver, f: Format, endEvent: bool, dbc: nat, syt: nat, blocks: nat, counter: Option<nat>)
    requires FormatOk(f) && Matches(r, f, endEvent) && dbc < 256 && syt < 0x1_0000
    ensures Check(r, Generate(f, dbc, syt), Payload(f, blocks), counter)
      == Continuity(r, Generate(f, dbc, syt), Payload(f, blocks), blocks, counter)
  {
    hide Generate, Continuity;
    FieldsOf(f, dbc, syt);
    BlocksOfPayload(blocks, f.dbs);
  }

  lemma BlocksOfPayload(blocks: nat, dbs: nat)
    requires dbs > 0
    ensures blocks * 4 * dbs / 4 / dbs == blocks
    ensures blocks * 4 * dbs == 0 <==> blocks == 0
  {
    assert blocks * 4 * dbs == (blocks * dbs) * 4;
    QuotientIs(blocks * 4 * dbs, blocks * dbs, 0, 4);
    QuotientIs(blocks * dbs, blocks, 0, dbs);
    if blocks > 0 {
      MulAtLeast(blocks, dbs);
    }
  }

  // ---- a stream of packets -------------------------------------------------

  datatype Packet = Packet(blocks: nat, syt: nat)

  predicate PacketsOk(ps: seq<Packet>) { forall i | 0 <= i < |ps| :: ps[i].syt < 0x1_0000 }

  function Sum(ps: seq<Packet>): nat {
    if ps == [] then 0 else Sum(ps[..|ps| - 1]) + ps[|ps| - 1].blocks
  }

  /** The counter after a run of packets. */
  function Advance(dbc: nat, ps: seq<Packet>): (r: nat)
    ensures r < 256
  {
    (dbc + Sum(ps)) % 256
  }

  /** The counter in the header of a packet: before or after its own blocks. */
  function HeaderDbc(dbc: nat, p: Packet, endEvent: bool): (r: nat)
    requires dbc < 256
    ensures r < 256
  {
    if endEvent then (dbc + p.blocks) % 256 else dbc
  }

  /** One packet on its way, `dbc` being the sum of all blocks before it: what the receiver
      makes of it and its counter afterwards. */
  function Receive(r: Receiver, f: Format, endEvent: bool, dbc: nat, p: Packet, counter: Option<nat>): (Checked, Option<nat>)
    requires FormatOk(f) && dbc < 256
  {
    var c := Check(r, Generate(f, HeaderDbc(dbc, p, endEvent), p.syt), Payload(f, p.blocks), counter);
    match c
    case Rejected(_) => (c, counter)
    case Accepted(blocks, d, _) => (c, Some(if endEvent then d else (d + blocks) % 256))
  }

  function Expected(r: Receiver, p: Packet): (nat, Option<nat>) {
    (p.blocks, if r.flags.unawareSyt then None else Some(p.syt))
  }

  lemma ModAdd(a: nat, b: nat)
    ensures (a % 256 + b) % 256 == (a + b) % 256
  {
  }

  /** A packet that follows what the receiver has seen is accepted with its blocks and SYT. */
  lemma ReceiveNext(r: Receiver, f: Format, endEvent: bool, dbc: nat, p: Packet, counter: Option<nat>)
    requires FormatOk(f) && Matches(r, f, endEvent) && dbc < 256 && p.syt < 0x1_0000
    requires counter.None? || counter.value == dbc
    ensures var (c, next) := Receive(r, f, endEvent, dbc, p, counter);
      && c.Accepted? && (c.blocks, c.syt) == Expected(r, p) && next == Some((dbc + p.blocks) % 256)
  {
    hide Generate, Check;
    FieldsOf(f, HeaderDbc(dbc, p, endEvent), p.syt);
    CheckGenerated(r, f, endEvent, HeaderDbc(dbc, p, endEvent), p.syt, p.blocks, counter);
  }

  /** After packets with `gap` blocks in all were lost, the next one is refused exactly if the
      gap shows in eight bits. */
  lemma LossDetected(r: Receiver, f: Format, endEvent: bool, dbc: nat, gap: nat, p: Packet)
    requires FormatOk(f) && Matches(r, f, endEvent) && dbc < 256 && p.syt < 0x1_0000
    requires !r.flags.skipDbcZeroCheck && !(r.flags.emptyHasWrongDbc && p.blocks == 0)
    ensures Receive(r, f, endEvent, (dbc + gap) % 256, p, Some(dbc)).0 == Rejected(EIO) <==> gap % 256 != 0
  {
    hide Generate, Check, Continuity, Matches, HeaderDbc, FormatOk, Dbc;
    var d := (dbc + gap) % 256;
    var h := HeaderDbc(d, p, endEvent);
    FieldsOf(f, h, p.syt);
    CheckGenerated(r, f, endEvent, h, p.syt, p.blocks, Some(dbc));
    CounterCompared(r, f, endEvent, Generate(f, h, p.syt), dbc, p);
    LossShows(endEvent, dbc, gap, p);
  }

  /** A packet is refused exactly if its counter is not the expected one. */
  lemma CounterCompared(r: Receiver, f: Format, endEvent: bool, h: Header, dbc: nat, p: Packet)
    requires Matches(r, f, endEvent) && dbc < 256
    requires !r.flags.skipDbcZeroCheck && !(r.flags.emptyHasWrongDbc && p.blocks == 0)
    ensures Continuity(r, h, Payload(f, p.blocks), p.blocks, Some(dbc)) == Rejected(EIO)
      <==> Dbc(h.q0) != HeaderDbc(dbc, p, endEvent)
  {
  }

  /** The counter in the header after a loss, against the expected one. */
  lemma LossShows(endEvent: bool, dbc: nat, gap: nat, p: Packet)
    requires dbc < 256
    ensures HeaderDbc((dbc + gap) % 256, p, endEvent) == HeaderDbc(dbc, p, endEvent) <==> gap % 256 == 0
  {
    ModAdd(dbc + gap, p.blocks);
    Shifted(dbc, gap, 0);
    Shifted(dbc, gap, p.blocks);
  }

  lemma Shifted(a: nat, gap: nat, b: nat)
    requires a < 256
    ensures (a + gap + b) % 256 == (a + b) % 256 <==> gap % 256 == 0
  {
  }

  /** The receiver's view of a whole run that starts with counter `dbc`. */
  function ReceiveAll(r: Receiver, f: Format, endEvent: bool, dbc: nat, ps: seq<Packet>, counter: Option<nat>)
    : (seq<Checked>, Option<nat>)
    requires FormatOk(f) && dbc < 256
  {
    if ps == [] then ([], counter) else
    var n := |ps| - 1;
    var (cs, before) := ReceiveAll(r, f, endEvent, dbc, ps[..n], counter);
    var (c, next) := Receive(r, f, endEvent, Advance(dbc, ps[..n]), ps[n], before);
    (cs + [c], next)
  }

  /** Every run of generated headers is accepted in full, and blocks and SYT come out as they
      went in, in both counter modes. */
  lemma {:induction false} StreamAccepted(r: Receiver, f: Format, endEvent: bool, dbc: nat, ps: seq<Packet>, counter: Option<nat>)
    requires FormatOk(f) && Matches(r, f, endEvent) && dbc < 256 && PacketsOk(ps)
    requires counter.None? || counter.value == dbc
    ensures var (cs, next) := ReceiveAll(r, f, endEvent, dbc, ps, counter);
      && |cs| == |ps| && (next.None? || next.value == Advance(dbc, ps)) && (ps != [] ==> next.Some?)
      && forall i | 0 <= i < |ps| :: cs[i].Accepted? && (cs[i].blocks, cs[i].syt) == Expected(r, ps[i])
  {
    hide Receive, Expected, FormatOk, Matches;
    if ps != [] {
      var n := |ps| - 1;
      StreamAccepted(r, f, endEvent, dbc, ps[..n], counter);
      var (cs, before) := ReceiveAll(r, f, endEvent, dbc, ps[..n], counter);
      ReceiveNext(r, f, endEvent, Advance(dbc, ps[..n]), ps[n], before);
      ModAdd(dbc + Sum(ps[..n]), ps[n].blocks);
    }
  }

  /** Packets lost in the middle of a stream are noticed at the next one exactly if their
      blocks are not a multiple of 256. */
  lemma DropNoticed(r: Receiver, f: Format, endEvent: bool, dbc: nat, seen: seq<Packet>, dropped: seq<Packet>, p: Packet)
    requires FormatOk(f) && Matches(r, f, endEvent) && dbc < 256 && PacketsOk(seen) && p.syt < 0x1_0000 && seen != []
    requires !r.flags.skipDbcZeroCheck && !(r.flags.emptyHasWrongDbc && p.blocks == 0)
    ensures var counter := ReceiveAll(r, f, endEvent, dbc, seen, None).1;
      Receive(r, f, endEvent, Advance(dbc, seen + dropped), p, counter).0 == Rejected(EIO) <==> Sum(dropped) % 256 != 0
  {
    hide ReceiveAll, Receive, FormatOk, Matches;
    StreamAccepted(r, f, endEvent, dbc, seen, None);
    SumAppend(seen, dropped);
    ModAdd(dbc + Sum(seen), Sum(dropped));
    LossDetected(r, f, endEvent, Advance(dbc, seen), Sum(dropped), p);
  }

  lemma {:induction false} SumAppend(a: seq<Packet>, b: seq<Packet>)
    ensures Sum(a + b) == Sum(a) + Sum(b)
  {
    if b == [] {
      assert a + b == a;
    } else {
      SumAppend(a, b[..|b| - 1]);
      assert (a + b)[..|a + b| - 1] == a + b[..|b| - 1];
    }
  }
}
