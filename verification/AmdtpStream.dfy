/** Packet descriptors of AMDTP streams: sequences pooled in ring buffers, batch by batch. */
module AmdtpStream {
  import opened Arith
  import opened SytSequence
  import Syt
  import C = Cip

  datatype SeqDesc = SeqDesc(sytOffset: nat, dataBlocks: nat)
  datatype PktDesc = PktDesc(cycle: nat, syt: nat, dataBlocks: nat, dbc: nat)

  // ---- ring positions ------------------------------------------------------

  /** Ring index of element `i` after `pos`. */
  function Slot(pos: nat, i: nat, size: nat): (x: nat)
    requires size > 0
    ensures x < size
  {
    (pos + i) % size
  }

  lemma SlotStep(pos: nat, i: nat, size: nat)
    requires size > 0
    ensures (Slot(pos, i, size) + 1) % size == Slot(pos, i + 1, size)
  {
    var q, r := (pos + i) / size, (pos + i) % size;
    assert pos + i == q * size + r;
    if r + 1 < size {
      QuotientIs(r + 1, 0, r + 1, size);
      QuotientIs(pos + i + 1, q, r + 1, size);
    } else {
      assert (q + 1) * size == q * size + size;
      QuotientIs(r + 1, 1, 0, size);
      QuotientIs(pos + i + 1, q + 1, 0, size);
    }
  }

  lemma SlotDistinct(pos: nat, i: nat, j: nat, size: nat)
    requires i < j < i + size
    ensures Slot(pos, i, size) != Slot(pos, j, size)
  {
    var q, r := (pos + i) / size, (pos + i) % size;
    assert pos + i == q * size + r;
    var d := j - i;
    if r + d < size {
      QuotientIs(pos + j, q, r + d, size);
    } else {
      assert (q + 1) * size == q * size + size;
      QuotientIs(pos + j, q + 1, r + d - size, size);
    }
  }

  /** Index `x` is not among the next `count`. */
  ghost predicate Outside(pos: nat, count: nat, size: nat, x: nat)
    requires size > 0
  {
    forall i: nat | i < count :: Slot(pos, i, size) != x
  }

  // ---- the ideal sequence --------------------------------------------------

  /** Packet number `m` of the ideal sequence. */
  function Ideal(sfc: Sfc, blocking: bool, m: nat): SeqDesc {
    var syt := SytOffset(sfc, m);
    SeqDesc(syt, if !blocking then Blocks(sfc, m) else if syt != NO_INFO then SytInterval(sfc) else 0)
  }

  // ---- packets -------------------------------------------------------------

  /** Packet number `m` of the ideal sequence, sent in its cycle. */
  predicate IsIdeal(q: PktDesc, sfc: Sfc, blocking: bool, m: nat, aware: bool, delay: nat) {
    q.dataBlocks == Ideal(sfc, blocking, m).dataBlocks && q.syt == OutSyt(Ideal(sfc, blocking, m), q.cycle, aware, delay)
  }

  /** The SYT of an outgoing packet. */
  function OutSyt(d: SeqDesc, cycle: nat, aware: bool, delay: nat): (syt: nat)
    ensures syt < 0x1_0000
  {
    if aware && d.sytOffset != NO_INFO then Syt.ComputeSyt(d.sytOffset, cycle, delay) else NO_INFO
  }

  /** What the cache keeps of a received packet. */
  function Cached(p: PktDesc, aware: bool, delay: nat): SeqDesc
    requires delay < Syt.TICKS
  {
    if aware && p.syt != NO_INFO then
      var o := Syt.ComputeSytOffset(p.syt, p.cycle, delay);
      SeqDesc(if o >= 0 then o else 0, p.dataBlocks)
    else SeqDesc(NO_INFO, p.dataBlocks)
  }

  function AsPackets(ds: seq<SeqDesc>, cycles: seq<nat>, aware: bool, delay: nat): (ps: seq<C.Packet>)
    requires |ds| == |cycles|
    ensures |ps| == |ds| && C.PacketsOk(ps)
  {
    seq(|ds|, i requires 0 <= i < |ds| => C.Packet(ds[i].dataBlocks, OutSyt(ds[i], cycles[i], aware, delay)))
  }

  /** Packet `q`, sent in place of the received packet `p`: it has as many data blocks, and its
      SYT is as far from its cycle, less the delay of one stream and with that of the other. */
  predicate Replays(q: PktDesc, p: PktDesc, aware: bool, inDelay: nat, outDelay: nat) {
    && q.dataBlocks == p.dataBlocks
    && (!aware || p.syt == NO_INFO ==> q.syt == NO_INFO)
    && (aware && p.syt < NO_INFO ==>
          && Syt.Valid(q.syt)
          && (Syt.Distance(q.syt, q.cycle) + inDelay) % Syt.TICKS == (Syt.Distance(p.syt, p.cycle) + outDelay) % Syt.TICKS
          && (inDelay == outDelay ==> Syt.Distance(q.syt, q.cycle) == Syt.Distance(p.syt, p.cycle) % Syt.TICKS)
          && (Syt.Valid(p.syt) ==> Syt.Distance(p.syt, p.cycle) < Syt.TICKS))
  }

  /** A received packet that is cached and sent again in another cycle. */
  lemma ReplayedPacket(p: PktDesc, inAware: bool, inDelay: nat, q: PktDesc, outAware: bool, outDelay: nat)
    requires inDelay < Syt.TICKS
    requires var d := Cached(p, inAware, inDelay);
      q.dataBlocks == d.dataBlocks && q.syt == OutSyt(d, q.cycle, outAware, outDelay)
    ensures Replays(q, p, inAware && outAware, inDelay, outDelay)
  {
    hide Syt.ComputeSyt, Syt.ComputeSytOffset, Syt.Distance;
    if inAware && outAware && p.syt < NO_INFO {
      var o := Syt.ComputeSytOffset(p.syt, p.cycle, inDelay);
      Syt.OffsetIsDistance(p.syt, p.cycle, inDelay);
      assert NO_INFO % 0x1000 >= TICKS_PER_CYCLE;
      Syt.SytParts(o, q.cycle, outDelay);
      Syt.SytDistance(o, q.cycle, outDelay);
      DelaysSwap(o, inDelay, outDelay);
      DelayAdds(Syt.Distance(p.syt, p.cycle), outDelay);
    }
  }

  lemma DelayAdds(d: nat, delay: nat)
    ensures (d % Syt.TICKS + delay) % Syt.TICKS == (d + delay) % Syt.TICKS
  {
  }

  lemma DelaysSwap(o: nat, a: nat, b: nat)
    ensures ((o + a) % Syt.TICKS + b) % Syt.TICKS == ((o + b) % Syt.TICKS + a) % Syt.TICKS
  {
  }

  // ---- the cache of a receiving stream -------------------------------------

  class TxStream {
    const cache: array<SeqDesc>
    const aware: bool
    const transferDelay: nat
    var cachePos: nat
    /** Every packet received so far, and what was cached of it. */
    ghost var received: seq<PktDesc>
    ghost var written: seq<SeqDesc>

    ghost predicate Valid()
      reads this, cache
    {
      && cache.Length > 0 && transferDelay < Syt.TICKS && cachePos == Slot(0, |written|, cache.Length)
      && (forall j | 0 <= j < |written| && |written| <= j + cache.Length :: cache[Slot(0, j, cache.Length)] == written[j])
      && |received| == |written|
      && forall j | 0 <= j < |written| :: written[j] == Cached(received[j], aware, transferDelay)
    }

    constructor (size: nat, isAware: bool, delay: nat)
      requires size > 0 && delay < Syt.TICKS
      ensures Valid() && fresh(cache) && received == [] && cache.Length == size
      ensures aware == isAware && transferDelay == delay
    {
      cache := new SeqDesc[size](i => SeqDesc(0, 0));
      aware, transferDelay, cachePos, received, written := isAware, delay, 0, [], [];
    }

    /** cache_seq: what is kept of the last `size` received packets can be read back, in order. */
    method CacheSeq(packets: seq<PktDesc>)
      requires Valid()
      modifies this`cachePos, this`received, this`written, cache
      ensures Valid() && received == old(received) + packets
    {
      hide Cached;
      var i := 0;
      while i < |packets|
        invariant i <= |packets| && Valid() && received == old(received) + packets[..i]
      {
        ghost var n := |written|;
        var d := Cached(packets[i], aware, transferDelay);
        SlotStep(0, n, cache.Length);
        forall j | 0 <= j < n && n < j + cache.Length ensures Slot(0, j, cache.Length) != cachePos {
          SlotDistinct(0, j, n, cache.Length);
        }
        cache[cachePos] := d;
        cachePos := (cachePos + 1) % cache.Length;
        received, written := received + [packets[i]], written + [d];
        i := i + 1;
      }
    }
  }

  /** calculate_cached_cycle_count */
  function CachedCycles(pos: nat, head: nat, size: nat): int {
    if pos < head then pos + size - head else pos - head
  }

  /** It counts what is cached and not read yet, as long as that is less than the cache. */
  lemma CachedCyclesIs(written: nat, read: nat, size: nat)
    requires size > 0 && read <= written < read + size
    ensures CachedCycles(Slot(0, written, size), Slot(0, read, size), size) == written - read
  {
    var q, r, d := read / size, read % size, written - read;
    assert read == q * size + r;
    if r + d < size {
      QuotientIs(written, q, r + d, size);
    } else {
      assert (q + 1) * size == q * size + size;
      QuotientIs(written, q + 1, r + d - size, size);
    }
  }

  // ---- a transmitting stream -----------------------------------------------

  class RxStream {
    const sfc: Sfc
    const blocking: bool
    const aware: bool
    const dbcIsEndEvent: bool
    const transferDelay: nat
    const descs: array<SeqDesc>
    var seqPos: nat
    var lastSytOffset: nat
    var sytOffsetState: nat
    var dataBlockState: nat
    var dataBlockCounter: nat
    var cachePos: nat
    /** Packets taken from the ideal sequence, and packets replayed. */
    ghost var pooled: nat
    ghost var replayed: nat

    ghost predicate Valid()
      reads this
    {
      && descs.Length > 0 && seqPos < descs.Length && dataBlockCounter < 256
      && SytState(lastSytOffset, sytOffsetState) == SytBefore(sfc, pooled)
      && (!blocking ==> dataBlockState == BlockState(sfc, pooled))
    }

    constructor (code: Sfc, isBlocking: bool, isAware: bool, endEvent: bool, delay: nat, queueSize: nat)
      requires queueSize > 0
      ensures Valid() && fresh(descs) && descs.Length == queueSize && pooled == replayed == 0 && dataBlockCounter == 0
      ensures sfc == code && blocking == isBlocking && aware == isAware && dbcIsEndEvent == endEvent
      ensures transferDelay == delay
    {
      sfc, blocking, aware, dbcIsEndEvent, transferDelay := code, isBlocking, isAware, endEvent, delay;
      descs := new SeqDesc[queueSize](i => SeqDesc(0, 0));
      seqPos, dataBlockCounter, cachePos := 0, 0, 0;
      lastSytOffset, sytOffsetState := InitialSyt(code).last, InitialSyt(code).state;
      dataBlockState := InitialBlockState(code);
      pooled, replayed := 0, 0;
    }

    /** pool_ideal_syt_offsets */
    method PoolSytOffsets(pos: nat, count: nat)
      requires Valid() && pos < descs.Length && count <= descs.Length
      modifies this`lastSytOffset, this`sytOffsetState, descs
      ensures SytState(lastSytOffset, sytOffsetState) == SytBefore(sfc, pooled + count)
      ensures forall i: nat | i < count :: descs[Slot(pos, i, descs.Length)].sytOffset == SytOffset(sfc, pooled + i)
      ensures forall x | 0 <= x < descs.Length && Outside(pos, count, descs.Length, x) :: descs[x] == old(descs[x])
    {
      hide CalculateSytOffset;
      var i, p := 0, pos;
      var s := SytState(lastSytOffset, sytOffsetState);
      SlotSelf(pos, descs.Length);
      while i < count
        invariant i <= count && p == Slot(pos, i, descs.Length) && s == SytBefore(sfc, pooled + i)
        invariant forall k: nat | k < i :: descs[Slot(pos, k, descs.Length)].sytOffset == SytOffset(sfc, pooled + k)
        invariant forall x | 0 <= x < descs.Length && Outside(pos, count, descs.Length, x) :: descs[x] == old(descs[x])
      {
        var (next, offset) := CalculateSytOffset(s, sfc);
        SlotStep(pos, i, descs.Length);
        forall k: nat | k < i ensures Slot(pos, k, descs.Length) != p {
          SlotDistinct(pos, k, i, descs.Length);
        }
        descs[p] := descs[p].(sytOffset := offset);
        s := next;
        p := (p + 1) % descs.Length;
        i := i + 1;
      }
      lastSytOffset, sytOffsetState := s.last, s.state;
    }

    /** pool_blocking_data_blocks and pool_ideal_nonblocking_data_blocks */
    method PoolDataBlocks(pos: nat, count: nat)
      requires descs.Length > 0 && pos < descs.Length && count <= descs.Length
      requires !blocking ==> dataBlockState == BlockState(sfc, pooled)
      modifies this`dataBlockState, descs
      ensures !blocking ==> dataBlockState == BlockState(sfc, pooled + count)
      ensures forall i: nat | i < count :: var x := Slot(pos, i, descs.Length);
        descs[x] == old(descs[x]).(dataBlocks := if !blocking then Blocks(sfc, pooled + i)
                                                 else if old(descs[x]).sytOffset != NO_INFO then SytInterval(sfc) else 0)
      ensures forall x | 0 <= x < descs.Length && Outside(pos, count, descs.Length, x) :: descs[x] == old(descs[x])
    {
      hide NextBlockState, IdealBlocks;
      var i, p := 0, pos;
      SlotSelf(pos, descs.Length);
      while i < count
        invariant i <= count && p == Slot(pos, i, descs.Length)
        invariant !blocking ==> dataBlockState == BlockState(sfc, pooled + i)
        invariant forall k: nat | k < i :: var x := Slot(pos, k, descs.Length);
          descs[x] == old(descs[x]).(dataBlocks := if !blocking then Blocks(sfc, pooled + k)
                                                   else if old(descs[x]).sytOffset != NO_INFO then SytInterval(sfc) else 0)
        invariant forall k: nat | i <= k < count :: descs[Slot(pos, k, descs.Length)] == old(descs[Slot(pos, k, descs.Length)])
        invariant forall x | 0 <= x < descs.Length && Outside(pos, count, descs.Length, x) :: descs[x] == old(descs[x])
      {
        SlotStep(pos, i, descs.Length);
        forall k: nat | k < count && k != i ensures Slot(pos, k, descs.Length) != p {
          SlotDistinct(pos, if k < i then k else i, if k < i then i else k, descs.Length);
        }
        if blocking {
          descs[p] := descs[p].(dataBlocks := if descs[p].sytOffset != NO_INFO then SytInterval(sfc) else 0);
        } else {
          descs[p] := descs[p].(dataBlocks := IdealBlocks(sfc, dataBlockState));
          dataBlockState := NextBlockState(sfc, dataBlockState);
        }
        p := (p + 1) % descs.Length;
        i := i + 1;
      }
    }

    /** pool_ideal_seq_descs: however a run is split into batches, packet number `m` is always
        the same. */
    method PoolIdealSeqDescs(pos: nat, count: nat)
      requires Valid() && pos < descs.Length && count <= descs.Length
      modifies this`lastSytOffset, this`sytOffsetState, this`dataBlockState, this`pooled, descs
      ensures Valid() && pooled == old(pooled) + count
      ensures forall i: nat | i < count :: descs[Slot(pos, i, descs.Length)] == Ideal(sfc, blocking, old(pooled) + i)
      ensures forall x | 0 <= x < descs.Length && Outside(pos, count, descs.Length, x) :: descs[x] == old(descs[x])
    {
      hide SytOffset, Blocks, SytBefore, BlockState;
      PoolSytOffsets(pos, count);
      PoolDataBlocks(pos, count);
      pooled := pooled + count;
    }

    /** pool_replayed_seq: what the other stream cached, in order, unless it has been overwritten. */
    method PoolReplayedSeq(tx: TxStream, pos: nat, count: nat)
      requires Valid() && tx.Valid() && descs != tx.cache && pos < descs.Length && count <= descs.Length
      requires cachePos == Slot(0, replayed, tx.cache.Length)
      requires replayed + count <= |tx.received| <= replayed + tx.cache.Length
      modifies this`cachePos, this`replayed, descs
      ensures Valid() && tx.Valid() && replayed == old(replayed) + count && cachePos == Slot(0, replayed, tx.cache.Length)
      ensures forall i: nat | i < count ::
        descs[Slot(pos, i, descs.Length)] == Cached(tx.received[old(replayed) + i], tx.aware, tx.transferDelay)
    {
      hide Cached;
      var i, p := 0, pos;
      SlotSelf(pos, descs.Length);
      while i < count
        invariant i <= count && p == Slot(pos, i, descs.Length) && tx.Valid()
        invariant replayed == old(replayed) + i && cachePos == Slot(0, replayed, tx.cache.Length)
        invariant forall k: nat | k < i :: descs[Slot(pos, k, descs.Length)] == tx.written[old(replayed) + k]
      {
        SlotStep(pos, i, descs.Length);
        SlotStep(0, replayed, tx.cache.Length);
        forall k: nat | k < i ensures Slot(pos, k, descs.Length) != p {
          SlotDistinct(pos, k, i, descs.Length);
        }
        descs[p] := tx.cache[cachePos];
        cachePos := (cachePos + 1) % tx.cache.Length;
        replayed := replayed + 1;
        p := (p + 1) % descs.Length;
        i := i + 1;
      }
    }

    /** The packets that `tx` received and this stream has not sent again are still cached. */
    ghost predicate Follows(tx: TxStream)
      reads this, tx, tx.cache
    {
      && tx.Valid() && descs != tx.cache && cachePos == Slot(0, replayed, tx.cache.Length)
      && replayed <= |tx.received| < replayed + tx.cache.Length
    }

    /** Whether the next batch is replayed: on the fly only while more than the batch and more
        than half of the cache is waiting. */
    ghost predicate Replaying(tx: TxStream?, enable: bool, onTheFly: bool, count: nat)
      reads this, tx, if tx == null then {} else {tx.cache}
    {
      enable && tx != null &&
      (!onTheFly || (|tx.received| - replayed > count && |tx.received| - replayed > tx.cache.Length / 2))
    }

    /** pool_seq_descs; `tx` is the replay target, if there is one. */
    method PoolSeqDescs(tx: TxStream?, enable: bool, onTheFly: bool, pos: nat, count: nat) returns (replay: bool)
      requires Valid() && pos < descs.Length && count <= descs.Length
      requires enable && tx != null ==> Follows(tx) && (onTheFly || replayed + count <= |tx.received|)
      modifies this`lastSytOffset, this`sytOffsetState, this`dataBlockState, this`pooled, this`cachePos, this`replayed, descs
      ensures Valid() && (enable && tx != null ==> Follows(tx))
      ensures replay == old(Replaying(tx, enable, onTheFly, count))
      ensures pooled == old(pooled) + (if replay then 0 else count) && replayed == old(replayed) + (if replay then count else 0)
      ensures replay ==> tx != null && replayed <= |tx.received|
      ensures replay ==> forall i: nat | i < count ::
        descs[Slot(pos, i, descs.Length)] == Cached(tx.received[old(replayed) + i], tx.aware, tx.transferDelay)
      ensures !replay ==> forall i: nat | i < count ::
        descs[Slot(pos, i, descs.Length)] == Ideal(sfc, blocking, old(pooled) + i)
    {
      hide Cached, Ideal, SytBefore, BlockState;
      if !enable || tx == null {
        replay := false;
      } else {
        var cached := CachedCycles(tx.cachePos, cachePos, tx.cache.Length);
        CachedCyclesIs(|tx.written|, replayed, tx.cache.Length);
        replay := !onTheFly || (cached > count && cached > tx.cache.Length / 2);
      }
      if replay {
        PoolReplayedSeq(tx, pos, count);
      } else {
        PoolIdealSeqDescs(pos, count);
      }
    }

    /** generate_rx_packet_descs: every packet stands for the received packet whose turn it is,
        or is the next one of the ideal sequence. */
    method GeneratePackets(tx: TxStream?, enable: bool, onTheFly: bool, cycles: seq<nat>)
      returns (replay: bool, packets: seq<PktDesc>)
      requires Valid() && |cycles| <= descs.Length
      requires enable && tx != null ==> Follows(tx) && (onTheFly || replayed + |cycles| <= |tx.received|)
      modifies this`lastSytOffset, this`sytOffsetState, this`dataBlockState, this`pooled, this`cachePos, this`replayed, descs,
               this`seqPos, this`dataBlockCounter
      ensures Valid() && (enable && tx != null ==> Follows(tx)) && |packets| == |cycles|
      ensures replay == old(Replaying(tx, enable, onTheFly, |cycles|))
      ensures pooled == old(pooled) + (if replay then 0 else |cycles|) && replayed == old(replayed) + (if replay then |cycles| else 0)
      ensures replay ==> tx != null && replayed <= |tx.received|
      ensures forall i | 0 <= i < |cycles| :: packets[i].cycle == cycles[i]
      ensures replay ==> forall i | 0 <= i < |cycles| ::
        Replays(packets[i], tx.received[old(replayed) + i], tx.aware && aware, tx.transferDelay, transferDelay)
      ensures !replay ==> forall i | 0 <= i < |cycles| ::
        IsIdeal(packets[i], sfc, blocking, old(pooled) + i, aware, transferDelay)
    {
      hide Cached, Ideal, OutSyt, SytBefore, BlockState, Replays, AsPackets, Window, PacketAt, C.Advance, C.HeaderDbc, Syt.Distance;
      ghost var start, read := seqPos, replayed;
      replay := PoolSeqDescs(tx, enable, onTheFly, seqPos, |cycles|);
      ghost var ring, dbc := descs[..], dataBlockCounter;
      packets := EmitPackets(cycles);
      forall i | 0 <= i < |cycles|
        ensures packets[i].cycle == cycles[i]
        ensures replay ==> Replays(packets[i], tx.received[read + i], tx.aware && aware, tx.transferDelay, transferDelay)
        ensures !replay ==> IsIdeal(packets[i], sfc, blocking, old(pooled) + i, aware, transferDelay)
      {
        PacketAtIs(ring, start, cycles, aware, transferDelay, dbc, dbcIsEndEvent, i);
        if replay {
          ReplayedPacket(tx.received[read + i], tx.aware, tx.transferDelay, packets[i], aware, transferDelay);
        }
      }
    }

    /** The loop of generate_rx_packet_descs: the headers' counters are those of one unbroken
        stream, in either mode. */
    method EmitPackets(cycles: seq<nat>) returns (packets: seq<PktDesc>)
      requires Valid()
      modifies this`seqPos, this`dataBlockCounter
      ensures Valid() && |packets| == |cycles| && seqPos == Slot(old(seqPos), |cycles|, descs.Length)
      ensures var ps := AsPackets(Window(descs[..], old(seqPos), |cycles|), cycles, aware, transferDelay);
        && dataBlockCounter == C.Advance(old(dataBlockCounter), ps)
        && forall i | 0 <= i < |cycles| :: packets[i] == PacketAt(ps, cycles, old(dataBlockCounter), dbcIsEndEvent, i)
    {
      hide OutSyt, C.Advance, C.HeaderDbc, PacketAt, AsPackets, Window;
      packets := [];
      ghost var ring, start, dbc0 := descs[..], seqPos, dataBlockCounter;
      ghost var ps := AsPackets(Window(ring, start, |cycles|), cycles, aware, transferDelay);
      SlotSelf(seqPos, descs.Length);
      var i := 0;
      AdvanceNone(dbc0, ps);
      while i < |cycles|
        invariant i <= |cycles| == |ps| && |packets| == i && Valid() && seqPos == Slot(start, i, descs.Length)
        invariant dataBlockCounter == C.Advance(dbc0, ps[..i])
        invariant forall k | 0 <= k < i :: packets[k] == PacketAt(ps, cycles, dbc0, dbcIsEndEvent, k)
      {
        var d := descs[seqPos];
        AdvanceStep(dbc0, ps, i);
        PacketAtIs(ring, start, cycles, aware, transferDelay, dbc0, dbcIsEndEvent, i);
        var dbc := dataBlockCounter;
        if dbcIsEndEvent {
          dbc := (dbc + d.dataBlocks) % 256;
        }
        packets := packets + [PktDesc(cycles[i], OutSyt(d, cycles[i], aware, transferDelay), d.dataBlocks, dbc)];
        if !dbcIsEndEvent {
          dbc := (dbc + d.dataBlocks) % 256;
        }
        dataBlockCounter := dbc;
        SlotStep(start, i, descs.Length);
        seqPos := (seqPos + 1) % descs.Length;
        i := i + 1;
      }
      assert ps[..i] == ps;
    }
  }

  /** The pooled descriptors that the next packets are made of. */
  function Window(ring: seq<SeqDesc>, pos: nat, count: nat): (w: seq<SeqDesc>)
    requires |ring| > 0
    ensures |w| == count
  {
    seq(count, i requires 0 <= i < count => ring[Slot(pos, i, |ring|)])
  }

  /** Packet `i` of a batch: its header carries the counter of an unbroken stream. */
  function PacketAt(ps: seq<C.Packet>, cycles: seq<nat>, dbc: nat, endEvent: bool, i: nat): PktDesc
    requires i < |ps| == |cycles|
  {
    PktDesc(cycles[i], ps[i].syt, ps[i].blocks, C.HeaderDbc(C.Advance(dbc, ps[..i]), ps[i], endEvent))
  }

  lemma AdvanceNone(dbc: nat, ps: seq<C.Packet>)
    requires dbc < 256
    ensures C.Advance(dbc, ps[..0]) == dbc
  {
    assert ps[..0] == [];
  }

  lemma PacketAtIs(ring: seq<SeqDesc>, start: nat, cycles: seq<nat>, aware: bool, delay: nat, dbc: nat, endEvent: bool, i: nat)
    requires |ring| > 0 && i < |cycles|
    ensures var ps, d := AsPackets(Window(ring, start, |cycles|), cycles, aware, delay), ring[Slot(start, i, |ring|)];
      && ps[i] == C.Packet(d.dataBlocks, OutSyt(d, cycles[i], aware, delay))
      && PacketAt(ps, cycles, dbc, endEvent, i) == PktDesc(cycles[i], OutSyt(d, cycles[i], aware, delay), d.dataBlocks,
           if endEvent then (C.Advance(dbc, ps[..i]) + d.dataBlocks) % 256 else C.Advance(dbc, ps[..i]))
  {
    hide OutSyt, C.Advance;
  }

  lemma SlotSelf(pos: nat, size: nat)
    requires pos < size
    ensures Slot(pos, 0, size) == pos
  {
  }

  lemma AdvanceStep(dbc: nat, ps: seq<C.Packet>, i: nat)
    requires i < |ps|
    ensures C.Advance(dbc, ps[..i + 1]) == (C.Advance(dbc, ps[..i]) + ps[i].blocks) % 256
  {
    assert ps[..i + 1][..i] == ps[..i];
    C.ModAdd(dbc + C.Sum(ps[..i]), ps[i].blocks);
  }
}
