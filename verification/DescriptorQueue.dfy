/** The DMA program of an OHCI context: descriptor blocks in a list of page-sized buffers,
    chained by branch addresses.

    Buffers are named by the order in which they were allocated, `used` counts descriptors
    (16 bytes each).  Beside the fields of the context a state records the blocks that are
    still chained, which is what the queue means: `chain[0]` is the block that ctx->last
    belongs to, the others wait to be retired.
 */
module DescriptorQueue {
  import opened Basics

  /** Descriptors that fit into a 4096-byte page beside its header and the padding. */
  const CAPACITY: nat := 252
  const PAGE: nat := 4096
  const ALLOCATION_LIMIT: nat := 16 * 1024 * 1024

  datatype Descriptor = Descriptor(
    reqCount: nat, control: nat, dataAddress: nat, branch: nat, resCount: nat, transferStatus: nat)

  datatype Buffer = Buffer(bus: nat, used: nat, data: seq<Descriptor>)

  /** A struct descriptor pointer. */
  datatype Ptr = Ptr(buf: nat, slot: nat)

  /** A block of `z` descriptors followed by `extra` slots of header data. */
  datatype Block = Block(at: Ptr, z: nat, extra: nat)

  datatype Queue = Queue(
    bufs: seq<Buffer>, list: seq<nat>, tail: nat, last: Ptr, prev: Ptr, prevZ: nat, total: nat)

  datatype State = State(q: Queue, chain: seq<Block>, pos: seq<nat>, tailPos: nat, appended: seq<Block>, done: seq<Block>)

  predicate BranchAlways(d: Descriptor) { d.control / 4 % 4 == 3 }
  predicate InputMore(d: Descriptor) { d.control / 4096 % 16 == 2 }

  predicate InData(bufs: seq<Buffer>, p: Ptr) { p.buf < |bufs| && p.slot < |bufs[p.buf].data| }

  function Load(bufs: seq<Buffer>, p: Ptr): Descriptor
    requires InData(bufs, p)
  {
    bufs[p.buf].data[p.slot]
  }

  /** The descriptor of a block that holds its branch address. */
  function FindBranch(bufs: seq<Buffer>, d: Ptr, z: nat): Ptr
    requires InData(bufs, d) && z > 0
  {
    if z == 2 && BranchAlways(Load(bufs, d)) then d else Ptr(d.buf, d.slot + z - 1)
  }

  function SetBranch(bufs: seq<Buffer>, p: Ptr, address: nat): (r: seq<Buffer>)
    requires InData(bufs, p)
    ensures |r| == |bufs|
  {
    var b := bufs[p.buf];
    bufs[p.buf := b.(data := b.data[p.slot := b.data[p.slot].(branch := address)])]
  }

  /** Bus address of a descriptor; 16-byte aligned, so a block length fits below it. */
  function Address(bufs: seq<Buffer>, p: Ptr): nat
    requires p.buf < |bufs|
  {
    bufs[p.buf].bus + 16 * p.slot
  }

  // ---- the invariant -------------------------------------------------------

  predicate BufferOk(b: Buffer) {
    && |b.data| == CAPACITY && b.used <= CAPACITY
    && b.bus % 16 == 0 && 0 < b.bus && b.bus + 16 * CAPACITY <= 0x1_0000_0000
  }

  predicate Apart(b: Buffer, c: Buffer) {
    b.bus + 16 * CAPACITY <= c.bus || c.bus + 16 * CAPACITY <= b.bus
  }

  ghost predicate BuffersOk(bufs: seq<Buffer>) {
    && (forall i | 0 <= i < |bufs| :: BufferOk(bufs[i]))
    && (forall i, j | 0 <= i < j < |bufs| :: Apart(bufs[i], bufs[j]))
  }

  /** Every buffer is on the list once. */
  ghost predicate ListOk(list: seq<nat>, n: nat) {
    && |list| == n
    && (forall p | 0 <= p < |list| :: list[p] < n)
    && (forall p, q | 0 <= p < q < |list| :: list[p] != list[q])
  }

  function End(b: Block): nat { b.at.slot + b.z + b.extra }

  /** A block lies in the used part of its buffer. */
  predicate Placed(bufs: seq<Buffer>, b: Block) {
    && b.at.buf < |bufs| && |bufs[b.at.buf].data| == CAPACITY
    && 1 <= b.z <= 15 && End(b) <= bufs[b.at.buf].used <= CAPACITY
  }

  predicate Precedes(b: Block, c: Block) { b.at.buf == c.at.buf ==> End(b) <= c.at.slot }

  function BranchOf(bufs: seq<Buffer>, b: Block): (p: Ptr)
    requires Placed(bufs, b)
    ensures InData(bufs, p) && p.buf == b.at.buf && b.at.slot <= p.slot < b.at.slot + b.z
  {
    FindBranch(bufs, b.at, b.z)
  }

  /** What the branch descriptor of `b` says. */
  function BranchValue(bufs: seq<Buffer>, b: Block): nat
    requires Placed(bufs, b)
  {
    Load(bufs, BranchOf(bufs, b)).branch
  }

  function LinkTo(bufs: seq<Buffer>, b: Block): nat
    requires Placed(bufs, b)
  {
    Address(bufs, b.at) + b.z
  }

  ghost predicate ChainPlaced(q: Queue, chain: seq<Block>, pos: seq<nat>) {
    && |chain| == |pos| > 0
    && (forall i | 0 <= i < |chain| :: Placed(q.bufs, chain[i]) && pos[i] < |q.list| && q.list[pos[i]] == chain[i].at.buf)
    && (forall i, j | 0 <= i < j < |chain| :: Precedes(chain[i], chain[j]))
  }

  /** Blocks follow each other on the same page or on the next one of the list. */
  predicate Adjacent(pos: seq<nat>) {
    && pos != [] && pos[0] == 0
    && forall i | 0 <= i < |pos| - 1 :: pos[i] <= pos[i + 1] <= pos[i] + 1
  }

  ghost predicate ChainLinked(bufs: seq<Buffer>, chain: seq<Block>)
    requires forall i | 0 <= i < |chain| :: Placed(bufs, chain[i])
  {
    && chain != []
    && (forall i | 0 <= i < |chain| - 1 :: BranchValue(bufs, chain[i]) == LinkTo(bufs, chain[i + 1]))
    && BranchValue(bufs, chain[|chain| - 1]) == 0
  }

  /** Blocks are written to the page after the last block's one only if that page is empty. */
  ghost predicate TailOk(q: Queue, lastPos: nat, tailPos: nat) {
    && lastPos <= tailPos <= lastPos + 1 && tailPos < |q.list| && q.list[tailPos] == q.tail
    && forall p | lastPos < p < |q.list| :: q.list[p] < |q.bufs| && q.bufs[q.list[p]].used == 0
  }

  ghost predicate Inv(s: State) {
    && BuffersOk(s.q.bufs) && ListOk(s.q.list, |s.q.bufs|)
    && ChainPlaced(s.q, s.chain, s.pos) && Adjacent(s.pos) && ChainLinked(s.q.bufs, s.chain)
    && TailOk(s.q, s.pos[|s.pos| - 1], s.tailPos)
    && s.q.last == BranchOf(s.q.bufs, s.chain[0])
    && s.q.prev == s.chain[|s.chain| - 1].at && s.q.prevZ == s.chain[|s.chain| - 1].z
    && s.q.total == PAGE * |s.q.bufs| <= ALLOCATION_LIMIT
    && s.appended == s.done + s.chain[1..]
  }

  // ---- the steps -----------------------------------------------------------

  /** Overwrites descriptors of one buffer, from `slot` on. */
  function Store(bufs: seq<Buffer>, buf: nat, slot: nat, contents: seq<Descriptor>): (r: seq<Buffer>)
    requires buf < |bufs| && slot + |contents| <= |bufs[buf].data|
    ensures |r| == |bufs|
  {
    var b := bufs[buf];
    bufs[buf := b.(data := b.data[..slot] + contents + b.data[slot + |contents|..])]
  }

  const ZERO: Descriptor := Descriptor(0, 0, 0, 0, 0, 0)

  function Zeros(n: nat): (r: seq<Descriptor>)
    ensures |r| == n
  {
    seq(n, i => ZERO)
  }

  /** Memory that the DMA allocator may hand out: aligned, addressable, apart from the rest. */
  ghost predicate Allocatable(bufs: seq<Buffer>, m: Buffer) {
    BufferOk(m.(used := 0)) && forall i | 0 <= i < |bufs| :: Apart(bufs[i], m)
  }

  function Allocated(s: State, m: Buffer): State {
    var q := s.q;
    s.(q := q.(bufs := q.bufs + [m.(used := 0)], list := q.list + [|q.bufs|], total := q.total + PAGE))
  }

  function Advanced(s: State): State
    requires s.tailPos + 1 < |s.q.list|
  {
    s.(q := s.q.(tail := s.q.list[s.tailPos + 1]), tailPos := s.tailPos + 1)
  }

  predicate Room(s: State, n: nat)
    requires s.q.tail < |s.q.bufs|
  {
    s.q.bufs[s.q.tail].used + n <= CAPACITY
  }

  /** The queue after the tail has room for `n` descriptors, if that can be had. */
  ghost function MakeRoom(s: State, n: nat, alloc: Option<Buffer>): Option<State>
    requires s.q.tail < |s.q.bufs|
  {
    if n > CAPACITY then None
    else if Room(s, n) then Some(s)
    else if s.tailPos + 1 < |s.q.list| then Some(Advanced(s))
    else if s.q.total >= ALLOCATION_LIMIT || alloc.None? then None
    else
      var s1 := Allocated(s, alloc.value);
      if s1.tailPos + 1 < |s1.q.list| then Some(Advanced(s1)) else None
  }

  /** Where a reservation of the tail starts. */
  function Free(s: State): Ptr
    requires s.q.tail < |s.q.bufs|
  {
    Ptr(s.q.tail, s.q.bufs[s.q.tail].used)
  }

  /** The owner of a reservation fills it in. */
  function Filled(s: State, contents: seq<Descriptor>): State
    requires s.q.tail < |s.q.bufs| && Free(s).slot + |contents| <= |s.q.bufs[s.q.tail].data|
  {
    s.(q := s.q.(bufs := Store(s.q.bufs, s.q.tail, Free(s).slot, contents)))
  }

  /** A reserved block is complete: it fits, and its branch address is still empty. */
  predicate Appendable(s: State, z: nat, extra: nat)
    requires s.q.tail < |s.q.bufs| && |s.q.bufs[s.q.tail].data| == CAPACITY
  {
    && 1 <= z <= 15 && Free(s).slot + z + extra <= CAPACITY
    && Load(s.q.bufs, FindBranch(s.q.bufs, Free(s), z)).branch == 0
  }

  function Claimed(bufs: seq<Buffer>, buf: nat, n: nat): (r: seq<Buffer>)
    requires buf < |bufs|
    ensures |r| == |bufs|
  {
    bufs[buf := bufs[buf].(used := bufs[buf].used + n)]
  }

  /** The branch of the last block, and on quirky controllers a copy in its first descriptor. */
  function Chained(bufs: seq<Buffer>, prev: Ptr, prevZ: nat, address: nat, quirk: bool): (r: seq<Buffer>)
    requires InData(bufs, prev) && prevZ > 0 && prev.slot + prevZ <= |bufs[prev.buf].data|
    ensures |r| == |bufs|
  {
    var branch := FindBranch(bufs, prev, prevZ);
    var r := SetBranch(bufs, branch, address);
    if quirk && branch != prev && InputMore(Load(r, prev)) then SetBranch(r, prev, address) else r
  }

  function Appended(s: State, z: nat, extra: nat, quirk: bool): State
    requires s.q.tail < |s.q.bufs| && s.q.prev.buf < |s.q.bufs| && s.q.prevZ > 0
    requires s.q.prev.slot + s.q.prevZ <= |s.q.bufs[s.q.prev.buf].data|
  {
    var d := Free(s);
    var b := Block(d, z, extra);
    var bufs := Claimed(s.q.bufs, d.buf, z + extra);
    State(s.q.(bufs := Chained(bufs, s.q.prev, s.q.prevZ, Address(bufs, d) + z, quirk), prev := d, prevZ := z),
          s.chain + [b], s.pos + [s.tailPos], s.tailPos, s.appended + [b], s.done)
  }

  /** The buffer that is now behind goes to the end of the list. */
  function Recycled(q: Queue): Queue
    requires |q.list| > 0 && q.list[0] < |q.bufs|
  {
    var head := q.list[0];
    q.(bufs := q.bufs[head := q.bufs[head].(used := 0)], list := q.list[1..] + [head])
  }

  /** Positions after the head of the list went away. */
  function Lowered(pos: seq<nat>): (r: seq<nat>)
    ensures |r| == |pos|
  {
    seq(|pos|, i requires 0 <= i < |pos| => if pos[i] > 0 then pos[i] - 1 else 0)
  }

  /** The first waiting block was reported as done. */
  function Retired(s: State): State
    requires |s.chain| == |s.pos| > 1 && |s.q.list| > 0 && s.q.list[0] < |s.q.bufs| && Placed(s.q.bufs, s.chain[1])
  {
    var b := s.chain[1];
    var q := s.q.(last := BranchOf(s.q.bufs, b));
    var r := s.(chain := s.chain[1..], done := s.done + [b]);
    if s.pos[1] == 0 then r.(q := q, pos := s.pos[1..])
    else r.(q := Recycled(q), pos := Lowered(s.pos[1..]), tailPos := if s.tailPos > 0 then s.tailPos - 1 else 0)
  }

  // ---- what a change of memory leaves alone --------------------------------

  /** A block that a change does not touch. */
  ghost predicate Untouched(bufs: seq<Buffer>, bufs': seq<Buffer>, b: Block) {
    && b.at.buf < |bufs| <= |bufs'|
    && var x, y := bufs[b.at.buf], bufs'[b.at.buf];
      && |x.data| == |y.data| == CAPACITY && x.bus == y.bus && End(b) <= y.used <= CAPACITY
      && (forall k | b.at.slot <= k < b.at.slot + b.z && k < CAPACITY ::
          x.data[k].control == y.data[k].control && x.data[k].branch == y.data[k].branch)
  }

  lemma UntouchedBlock(bufs: seq<Buffer>, bufs': seq<Buffer>, b: Block)
    requires Placed(bufs, b) && Untouched(bufs, bufs', b)
    ensures Placed(bufs', b) && BranchOf(bufs', b) == BranchOf(bufs, b)
    ensures BranchValue(bufs', b) == BranchValue(bufs, b) && LinkTo(bufs', b) == LinkTo(bufs, b)
  {
  }

  /** A chain all of whose blocks are left alone stays as it is. */
  lemma LinkedUntouched(bufs: seq<Buffer>, bufs': seq<Buffer>, chain: seq<Block>)
    requires forall i | 0 <= i < |chain| :: Placed(bufs, chain[i])
    requires ChainLinked(bufs, chain) && forall i | 0 <= i < |chain| :: Untouched(bufs, bufs', chain[i])
    ensures forall i | 0 <= i < |chain| :: Placed(bufs', chain[i])
    ensures ChainLinked(bufs', chain) && BranchOf(bufs', chain[0]) == BranchOf(bufs, chain[0])
  {
    hide Untouched, Placed;
    forall i | 0 <= i < |chain|
      ensures Placed(bufs', chain[i]) && BranchOf(bufs', chain[i]) == BranchOf(bufs, chain[i])
        && BranchValue(bufs', chain[i]) == BranchValue(bufs, chain[i])
        && LinkTo(bufs', chain[i]) == LinkTo(bufs, chain[i])
    {
      UntouchedBlock(bufs, bufs', chain[i]);
    }
    hide BranchOf, BranchValue, LinkTo;
  }

  lemma ChainUntouched(s: State, q': Queue)
    requires ChainPlaced(s.q, s.chain, s.pos) && ChainLinked(s.q.bufs, s.chain)
    requires s.q.list <= q'.list && forall i | 0 <= i < |s.chain| :: Untouched(s.q.bufs, q'.bufs, s.chain[i])
    ensures ChainPlaced(q', s.chain, s.pos) && ChainLinked(q'.bufs, s.chain)
    ensures BranchOf(q'.bufs, s.chain[0]) == BranchOf(s.q.bufs, s.chain[0])
  {
    hide Untouched, Placed, Precedes, ChainLinked, BranchOf;
    LinkedUntouched(s.q.bufs, q'.bufs, s.chain);
  }

  // ---- every step keeps the invariant --------------------------------------

  lemma AllocatedInv(s: State, m: Buffer)
    requires Inv(s) && Allocatable(s.q.bufs, m) && s.q.total < ALLOCATION_LIMIT
    ensures Inv(Allocated(s, m))
  {
    var t := Allocated(s, m);
    forall i | 0 <= i < |s.chain| ensures Untouched(s.q.bufs, t.q.bufs, s.chain[i]) {
      PlacedUntouched(s.q.bufs, t.q.bufs, s.chain[i]);
    }
    hide Untouched, ChainPlaced, ChainLinked, Adjacent, BufferOk, Apart;
    ChainUntouched(s, t.q);
  }

  lemma PlacedUntouched(bufs: seq<Buffer>, bufs': seq<Buffer>, b: Block)
    requires Placed(bufs, b) && b.at.buf < |bufs'| && |bufs| <= |bufs'| && bufs'[b.at.buf] == bufs[b.at.buf]
    ensures Untouched(bufs, bufs', b)
  {
  }

  lemma TailFacts(s: State)
    requires Inv(s)
    ensures s.q.tail < |s.q.bufs| && |s.q.bufs[s.q.tail].data| == CAPACITY && s.q.bufs[s.q.tail].used <= CAPACITY
    ensures s.tailPos < |s.q.list| && s.q.list[s.tailPos] == s.q.tail
    ensures s.q.bufs[s.q.tail].used > 0 ==> s.tailPos == s.pos[|s.pos| - 1]
    ensures s.q.prev.buf < |s.q.bufs| && s.q.prevZ > 0
    ensures s.q.prev.slot + s.q.prevZ <= |s.q.bufs[s.q.prev.buf].data|
  {
    hide ChainLinked, Adjacent;
    assert BufferOk(s.q.bufs[s.q.tail]);
    assert Placed(s.q.bufs, s.chain[|s.chain| - 1]);
  }

  lemma AdvancedInv(s: State)
    requires Inv(s) && s.tailPos + 1 < |s.q.list| && s.q.tail < |s.q.bufs| && s.q.bufs[s.q.tail].used > 0
    ensures Inv(Advanced(s))
  {
    TailFacts(s);
    hide BuffersOk, ListOk, ChainPlaced, ChainLinked, Adjacent, BranchOf;
  }

  /** Nothing that is chained lies in the free part of the tail. */
  lemma BelowFree(s: State, i: nat)
    requires Inv(s) && i < |s.chain| && s.q.tail < |s.q.bufs|
    ensures Placed(s.q.bufs, s.chain[i])
    ensures s.chain[i].at.buf == s.q.tail ==> End(s.chain[i]) <= Free(s).slot
  {
    hide ChainLinked, Adjacent, ListOk, BuffersOk;
  }

  lemma FilledInv(s: State, contents: seq<Descriptor>)
    requires Inv(s) && s.q.tail < |s.q.bufs| && |s.q.bufs[s.q.tail].data| == CAPACITY && Free(s).slot + |contents| <= CAPACITY
    ensures Inv(Filled(s, contents))
    ensures forall i | 0 <= i < |s.chain| :: Untouched(s.q.bufs, Filled(s, contents).q.bufs, s.chain[i])
    ensures forall k | 0 <= k < |contents| :: Load(Filled(s, contents).q.bufs, Ptr(s.q.tail, Free(s).slot + k)) == contents[k]
  {
    var t := Filled(s, contents);
    hide Inv;
    forall i | 0 <= i < |s.chain| ensures Untouched(s.q.bufs, t.q.bufs, s.chain[i]) {
      BelowFree(s, i);
    }
    hide Untouched;
    RewrittenInv(s, t.q.bufs, s.q.tail);
  }

  /** Changing data of one buffer outside the chained blocks keeps everything. */
  lemma RewrittenInv(s: State, bufs: seq<Buffer>, k: nat)
    requires Inv(s) && k < |s.q.bufs| == |bufs| && bufs == s.q.bufs[k := bufs[k]]
    requires bufs[k] == s.q.bufs[k].(data := bufs[k].data) && |bufs[k].data| == CAPACITY
    requires forall i | 0 <= i < |s.chain| :: Untouched(s.q.bufs, bufs, s.chain[i])
    ensures Inv(s.(q := s.q.(bufs := bufs)))
  {
    hide *;
    InvParts(s);
    var t := s.(q := s.q.(bufs := bufs));
    ChainUntouched(s, t.q);
    UsedBound(s.q.bufs, k);
    FilledBuffers(s.q.bufs, bufs, k);
    TailRewritten(s.q, t.q, s.pos[|s.pos| - 1], s.tailPos);
    ChainIsPlaced(t.q, s.chain, s.pos);
    InvIntro(t);
  }

  lemma UsedBound(bufs: seq<Buffer>, k: nat)
    requires BuffersOk(bufs) && k < |bufs|
    ensures bufs[k].used <= CAPACITY
  {
    assert BufferOk(bufs[k]);
  }

  lemma ChainIsPlaced(q: Queue, chain: seq<Block>, pos: seq<nat>)
    requires ChainPlaced(q, chain, pos)
    ensures forall i | 0 <= i < |chain| :: Placed(q.bufs, chain[i])
  {
    hide Placed, Precedes;
  }

  lemma TailRewritten(q: Queue, q': Queue, lastPos: nat, tailPos: nat)
    requires TailOk(q, lastPos, tailPos) && q' == q.(bufs := q'.bufs) && |q'.bufs| == |q.bufs|
    requires forall k | 0 <= k < |q.bufs| :: q'.bufs[k].used == q.bufs[k].used
    ensures TailOk(q', lastPos, tailPos)
  {
  }

  lemma FilledBuffers(bufs: seq<Buffer>, bufs': seq<Buffer>, k: nat)
    requires BuffersOk(bufs) && k < |bufs| == |bufs'|
    requires bufs' == bufs[k := bufs'[k]] && bufs'[k].bus == bufs[k].bus
    requires |bufs'[k].data| == CAPACITY && bufs'[k].used <= CAPACITY
    ensures BuffersOk(bufs')
  {
    forall i | 0 <= i < |bufs'| ensures BufferOk(bufs'[i]) {
      assert BufferOk(bufs[i]);
    }
    forall i, j | 0 <= i < j < |bufs'| ensures Apart(bufs'[i], bufs'[j]) {
      assert Apart(bufs[i], bufs[j]);
    }
  }

  // ---- appending -----------------------------------------------------------

  /** Chaining changes branch addresses inside the last block only. */
  lemma ChainedBuffers(bufs: seq<Buffer>, prev: Ptr, prevZ: nat, address: nat, quirk: bool, k: nat)
    requires InData(bufs, prev) && prevZ > 0 && prev.slot + prevZ <= |bufs[prev.buf].data| && k < |bufs|
    ensures var r := Chained(bufs, prev, prevZ, address, quirk);
      && r[k] == bufs[k].(data := r[k].data) && |r[k].data| == |bufs[k].data|
      && (k != prev.buf ==> r[k] == bufs[k])
      && r == bufs[prev.buf := r[prev.buf]]
  {
  }

  lemma ChainedAt(bufs: seq<Buffer>, prev: Ptr, prevZ: nat, address: nat, quirk: bool, p: Ptr)
    requires InData(bufs, prev) && prevZ > 0 && prev.slot + prevZ <= |bufs[prev.buf].data| && InData(bufs, p)
    ensures var r := Chained(bufs, prev, prevZ, address, quirk);
      && InData(r, p) && Load(r, p) == Load(bufs, p).(branch := Load(r, p).branch)
      && (!(p.buf == prev.buf && prev.slot <= p.slot < prev.slot + prevZ) ==> Load(r, p) == Load(bufs, p))
      && (p == FindBranch(bufs, prev, prevZ) ==> Load(r, p).branch == address)
  {
  }

  /** What append does to memory, seen from one block. */
  lemma AppendKeeps(s: State, z: nat, extra: nat, quirk: bool, i: nat)
    requires Inv(s) && s.q.tail < |s.q.bufs| && |s.q.bufs[s.q.tail].data| == CAPACITY && Appendable(s, z, extra)
    requires s.q.prev.buf < |s.q.bufs| && s.q.prevZ > 0
    requires s.q.prev.slot + s.q.prevZ <= |s.q.bufs[s.q.prev.buf].data|
    requires i < |s.chain| - 1
    ensures Untouched(s.q.bufs, Appended(s, z, extra, quirk).q.bufs, s.chain[i])
  {
    hide ChainLinked, Adjacent, ListOk, TailOk, Chained;
    var b, c := s.chain[i], s.chain[|s.chain| - 1];
    BelowFree(s, i);
    assert Precedes(b, c);
    var bufs := Claimed(s.q.bufs, s.q.tail, z + extra);
    var address := Address(bufs, Free(s)) + z;
    ChainedBuffers(bufs, s.q.prev, s.q.prevZ, address, quirk, b.at.buf);
    var r := Chained(bufs, s.q.prev, s.q.prevZ, address, quirk);
    forall k | b.at.slot <= k < b.at.slot + b.z && k < CAPACITY
      ensures s.q.bufs[b.at.buf].data[k] == r[b.at.buf].data[k]
    {
      ChainedAt(bufs, s.q.prev, s.q.prevZ, address, quirk, Ptr(b.at.buf, k));
    }
  }

  /** The block that was last now leads to the new one. */
  lemma AppendLinks(s: State, z: nat, extra: nat, quirk: bool)
    requires Inv(s) && s.q.tail < |s.q.bufs| && |s.q.bufs[s.q.tail].data| == CAPACITY && Appendable(s, z, extra)
    requires s.q.prev.buf < |s.q.bufs| && s.q.prevZ > 0
    requires s.q.prev.slot + s.q.prevZ <= |s.q.bufs[s.q.prev.buf].data|
    ensures var bufs, b := Appended(s, z, extra, quirk).q.bufs, s.chain[|s.chain| - 1];
      && Placed(s.q.bufs, b) && Placed(bufs, b) && BranchOf(bufs, b) == BranchOf(s.q.bufs, b)
      && BranchValue(bufs, b) == Address(s.q.bufs, Free(s)) + z && LinkTo(bufs, b) == LinkTo(s.q.bufs, b)
      && Precedes(b, Block(Free(s), z, extra))
  {
    hide ChainLinked, Adjacent, ListOk, TailOk, Chained;
    var b := s.chain[|s.chain| - 1];
    BelowFree(s, |s.chain| - 1);
    var bufs := Claimed(s.q.bufs, s.q.tail, z + extra);
    var address := Address(bufs, Free(s)) + z;
    ChainedBuffers(bufs, s.q.prev, s.q.prevZ, address, quirk, b.at.buf);
    ChainedAt(bufs, s.q.prev, s.q.prevZ, address, quirk, b.at);
    ChainedAt(bufs, s.q.prev, s.q.prevZ, address, quirk, BranchOf(s.q.bufs, b));
  }

  /** The new block ends the chain. */
  lemma AppendEnds(s: State, z: nat, extra: nat, quirk: bool)
    requires Inv(s) && s.q.tail < |s.q.bufs| && |s.q.bufs[s.q.tail].data| == CAPACITY && Appendable(s, z, extra)
    requires s.q.prev.buf < |s.q.bufs| && s.q.prevZ > 0
    requires s.q.prev.slot + s.q.prevZ <= |s.q.bufs[s.q.prev.buf].data|
    ensures var bufs, b := Appended(s, z, extra, quirk).q.bufs, Block(Free(s), z, extra);
      Placed(bufs, b) && BranchValue(bufs, b) == 0 && LinkTo(bufs, b) == Address(s.q.bufs, Free(s)) + z
  {
    hide ChainLinked, Adjacent, ListOk, TailOk, Chained;
    var d := Free(s);
    BelowFree(s, |s.chain| - 1);
    var bufs := Claimed(s.q.bufs, s.q.tail, z + extra);
    var address := Address(bufs, d) + z;
    ChainedBuffers(bufs, s.q.prev, s.q.prevZ, address, quirk, d.buf);
    ChainedAt(bufs, s.q.prev, s.q.prevZ, address, quirk, d);
    ChainedAt(bufs, s.q.prev, s.q.prevZ, address, quirk, FindBranch(s.q.bufs, d, z));
  }

  lemma AppendBuffers(s: State, z: nat, extra: nat, quirk: bool)
    requires Inv(s) && s.q.tail < |s.q.bufs| && |s.q.bufs[s.q.tail].data| == CAPACITY && Appendable(s, z, extra)
    requires s.q.prev.buf < |s.q.bufs| && s.q.prevZ > 0
    requires s.q.prev.slot + s.q.prevZ <= |s.q.bufs[s.q.prev.buf].data|
    ensures BuffersOk(Appended(s, z, extra, quirk).q.bufs)
    ensures forall k | 0 <= k < |s.q.bufs| && k != s.q.tail :: Appended(s, z, extra, quirk).q.bufs[k].used == s.q.bufs[k].used
  {
    hide ChainLinked, Adjacent, ListOk, TailOk, Chained, BuffersOk;
    BelowFree(s, |s.chain| - 1);
    var bufs := Claimed(s.q.bufs, s.q.tail, z + extra);
    var address := Address(bufs, Free(s)) + z;
    FilledBuffers(s.q.bufs, bufs, s.q.tail);
    ChainedBuffers(bufs, s.q.prev, s.q.prevZ, address, quirk, s.q.prev.buf);
    assert bufs[s.q.prev.buf].used <= CAPACITY;
    FilledBuffers(bufs, Chained(bufs, s.q.prev, s.q.prevZ, address, quirk), s.q.prev.buf);
    forall k | 0 <= k < |s.q.bufs| && k != s.q.tail
      ensures Chained(bufs, s.q.prev, s.q.prevZ, address, quirk)[k].used == s.q.bufs[k].used
    {
      ChainedBuffers(bufs, s.q.prev, s.q.prevZ, address, quirk, k);
    }
  }

  lemma AppendedInv(s: State, z: nat, extra: nat, quirk: bool)
    requires Inv(s) && s.q.tail < |s.q.bufs| && |s.q.bufs[s.q.tail].data| == CAPACITY && Appendable(s, z, extra)
    requires s.q.prev.buf < |s.q.bufs| && s.q.prevZ > 0
    requires s.q.prev.slot + s.q.prevZ <= |s.q.bufs[s.q.prev.buf].data|
    ensures Inv(Appended(s, z, extra, quirk))
  {
    hide Appendable, Untouched, Chained, Placed, BranchOf, BranchValue, LinkTo;
    var t, b, n := Appended(s, z, extra, quirk), Block(Free(s), z, extra), |s.chain|;
    AppendBuffers(s, z, extra, quirk);
    AppendLinks(s, z, extra, quirk);
    AppendEnds(s, z, extra, quirk);
    forall i | 0 <= i < n - 1
      ensures Placed(t.q.bufs, s.chain[i]) && BranchOf(t.q.bufs, s.chain[i]) == BranchOf(s.q.bufs, s.chain[i])
        && BranchValue(t.q.bufs, s.chain[i]) == BranchValue(s.q.bufs, s.chain[i])
        && LinkTo(t.q.bufs, s.chain[i]) == LinkTo(s.q.bufs, s.chain[i])
    {
      AppendKeeps(s, z, extra, quirk, i);
      UntouchedBlock(s.q.bufs, t.q.bufs, s.chain[i]);
    }
    AppendOrder(s, b);
    AppendChain(s, t, b);
    AppendTail(s, t);
  }

  /** The free slot lies behind every chained block. */
  lemma AppendOrder(s: State, b: Block)
    requires Inv(s) && s.q.tail < |s.q.bufs| && b.at == Free(s)
    ensures forall i | 0 <= i < |s.chain| :: Precedes(s.chain[i], b)
    ensures Adjacent(s.pos + [s.tailPos])
  {
    forall i | 0 <= i < |s.chain| ensures Precedes(s.chain[i], b) {
      BelowFree(s, i);
    }
    hide BuffersOk, ListOk, ChainPlaced, ChainLinked;
  }

  lemma AppendChain(s: State, t: State, b: Block)
    requires ChainPlaced(s.q, s.chain, s.pos) && ChainLinked(s.q.bufs, s.chain)
    requires t.chain == s.chain + [b] && t.pos == s.pos + [s.tailPos] && t.q.list == s.q.list
    requires s.tailPos < |s.q.list| && s.q.list[s.tailPos] == b.at.buf
    requires forall i | 0 <= i < |s.chain| :: Precedes(s.chain[i], b)
    requires forall i | 0 <= i < |s.chain| :: Placed(t.q.bufs, s.chain[i]) && LinkTo(t.q.bufs, s.chain[i]) == LinkTo(s.q.bufs, s.chain[i])
    requires forall i | 0 <= i < |s.chain| - 1 :: BranchValue(t.q.bufs, s.chain[i]) == BranchValue(s.q.bufs, s.chain[i])
    requires Placed(t.q.bufs, b) && BranchValue(t.q.bufs, s.chain[|s.chain| - 1]) == LinkTo(t.q.bufs, b)
    requires BranchValue(t.q.bufs, b) == 0
    ensures ChainPlaced(t.q, t.chain, t.pos) && ChainLinked(t.q.bufs, t.chain)
  {
    hide Placed, BranchOf, BranchValue, LinkTo, Precedes;
    forall i | 0 <= i < |t.chain| - 1 ensures BranchValue(t.q.bufs, t.chain[i]) == LinkTo(t.q.bufs, t.chain[i + 1]) {
      if i < |s.chain| - 1 {
        assert t.chain[i] == s.chain[i] && t.chain[i + 1] == s.chain[i + 1];
      }
    }
  }

  lemma AppendTail(s: State, t: State)
    requires s.pos != [] && TailOk(s.q, s.pos[|s.pos| - 1], s.tailPos) && ListOk(s.q.list, |s.q.bufs|)
    requires s.q.tail < |s.q.bufs| == |t.q.bufs|
    requires t.q.list == s.q.list && t.q.tail == s.q.tail
    requires forall k | 0 <= k < |s.q.bufs| && k != s.q.tail :: t.q.bufs[k].used == s.q.bufs[k].used
    ensures TailOk(t.q, s.tailPos, s.tailPos)
  {
  }

  // ---- retiring ------------------------------------------------------------

  /** What the retirement loop works out from the branch address that ctx->last holds. */
  datatype Located = Located(desc: nat, d: Ptr, z: nat, last: Ptr)

  /** The buffer an address lies in: the first of the list, or else the second. */
  function BufferOf(q: Queue, address: nat): (k: nat)
    requires |q.list| > 0 && forall p | 0 <= p < |q.list| :: q.list[p] < |q.bufs|
    ensures k < |q.bufs|
  {
    var head := q.bufs[q.list[0]];
    if address < head.bus || address >= head.bus + 16 * head.used then
      (if |q.list| > 1 then q.list[1] else q.list[0])
    else q.list[0]
  }

  /** The address arithmetic finds exactly the first waiting block, or the end of the chain. */
  lemma LocatedIsNext(s: State)
    requires Inv(s)
    ensures InData(s.q.bufs, s.q.last) && |s.q.list| > 0 && forall p | 0 <= p < |s.q.list| :: s.q.list[p] < |s.q.bufs|
    ensures Load(s.q.bufs, s.q.last).branch == 0 <==> |s.chain| == 1
    ensures |s.chain| > 1 ==>
      var b, word := s.chain[1], Load(s.q.bufs, s.q.last).branch;
      && Placed(s.q.bufs, b) && word % 16 == b.z
      && var address := word - word % 16;
        && address == Address(s.q.bufs, b.at)
        && BufferOf(s.q, address) == b.at.buf == s.q.list[s.pos[1]]
        && address - s.q.bufs[b.at.buf].bus == 16 * b.at.slot
  {
    hide TailOk, ListOk;
    assert ListOk(s.q.list, |s.q.bufs|) ==> forall p | 0 <= p < |s.q.list| :: s.q.list[p] < |s.q.bufs| by {
      if ListOk(s.q.list, |s.q.bufs|) {
        ListInRange(s.q.list, |s.q.bufs|);
      }
    }
    if |s.chain| > 1 {
      var b := s.chain[1];
      assert BranchValue(s.q.bufs, s.chain[0]) == LinkTo(s.q.bufs, s.chain[0 + 1]);
      hide ChainLinked;
      LinkParts(s.q.bufs, b);
      AddressInside(s.q, b, s.pos[1]);
    }
  }

  lemma ListInRange(list: seq<nat>, n: nat)
    requires ListOk(list, n)
    ensures forall p | 0 <= p < |list| :: list[p] < n
  {
  }

  lemma LinkParts(bufs: seq<Buffer>, b: Block)
    requires Placed(bufs, b) && BufferOk(bufs[b.at.buf])
    ensures LinkTo(bufs, b) % 16 == b.z && LinkTo(bufs, b) - b.z == Address(bufs, b.at) && LinkTo(bufs, b) > 0
    ensures LinkTo(bufs, b) < 0x1_0000_0000
  {
  }

  lemma AddressInside(q: Queue, b: Block, pos: nat)
    requires BuffersOk(q.bufs) && Placed(q.bufs, b) && pos <= 1 && pos < |q.list| && q.list[pos] == b.at.buf
    requires ListOk(q.list, |q.bufs|) && forall p | 0 <= p < |q.list| :: q.list[p] < |q.bufs|
    ensures BufferOf(q, Address(q.bufs, b.at)) == b.at.buf
  {
    var head := q.list[0];
    if pos == 1 {
      assert head != b.at.buf;
      assert Apart(q.bufs[if head < b.at.buf then head else b.at.buf], q.bufs[if head < b.at.buf then b.at.buf else head]);
      assert BufferOk(q.bufs[head]) && BufferOk(q.bufs[b.at.buf]);
    }
  }

  /** The chain without the block that was finished before. */
  lemma DropFirst(q: Queue, chain: seq<Block>, pos: seq<nat>)
    requires ChainPlaced(q, chain, pos) && ChainLinked(q.bufs, chain) && |chain| > 1
    ensures ChainPlaced(q, chain[1..], pos[1..]) && ChainLinked(q.bufs, chain[1..]) && |pos| == |chain|
  {
    hide Placed, BranchOf, BranchValue, LinkTo, Precedes;
    var c, p := chain[1..], pos[1..];
    forall i | 0 <= i < |c| ensures Placed(q.bufs, c[i]) && p[i] < |q.list| && q.list[p[i]] == c[i].at.buf {
      assert c[i] == chain[i + 1];
    }
    forall i, j | 0 <= i < j < |c| ensures Precedes(c[i], c[j]) {
      assert Precedes(chain[i + 1], chain[j + 1]);
    }
    forall i | 0 <= i < |c| - 1 ensures BranchValue(q.bufs, c[i]) == LinkTo(q.bufs, c[i + 1]) {
      assert BranchValue(q.bufs, chain[i + 1]) == LinkTo(q.bufs, chain[i + 1 + 1]);
    }
  }

  /** Later blocks are never on an earlier page. */
  lemma {:induction false} PosGrows(pos: seq<nat>, i: nat, j: nat)
    requires Adjacent(pos) && i <= j < |pos|
    ensures pos[i] <= pos[j]
  {
    if i < j {
      PosGrows(pos, i, j - 1);
      assert pos[j - 1] <= pos[j - 1 + 1];
    }
  }

  /** No waiting block is left on a page that is behind. */
  lemma HeadIsFree(s: State, i: nat)
    requires Inv(s) && 0 < i < |s.chain| && s.pos[1] != 0
    ensures s.pos[i] > 0 && s.chain[i].at.buf != s.q.list[0]
  {
    hide ChainLinked, BuffersOk, TailOk;
    PosGrows(s.pos, 1, i);
  }

  lemma RecycledList(list: seq<nat>, n: nat)
    requires ListOk(list, n) && n > 0
    ensures ListOk(list[1..] + [list[0]], n)
  {
    var r := list[1..] + [list[0]];
    forall p, q | 0 <= p < q < |r| ensures r[p] != r[q] {
      assert r[p] == list[p + 1] && r[q] == if q + 1 < |list| then list[q + 1] else list[0];
    }
  }

  lemma RecycledTail(q: Queue, lastPos: nat, tailPos: nat)
    requires ListOk(q.list, |q.bufs|) && TailOk(q, lastPos, tailPos) && lastPos > 0
    ensures TailOk(Recycled(q), lastPos - 1, tailPos - 1)
  {
    var r := Recycled(q);
    forall p | lastPos - 1 < p < |r.list| ensures r.list[p] < |r.bufs| && r.bufs[r.list[p]].used == 0 {
      assert r.list[p] == if p + 1 < |q.list| then q.list[p + 1] else q.list[0];
    }
  }

  /** Freeing the page behind moves all others up by one and touches no block. */
  lemma RecycledChain(q: Queue, chain: seq<Block>, pos: seq<nat>)
    requires ChainPlaced(q, chain, pos) && ChainLinked(q.bufs, chain) && q.list != [] && q.list[0] < |q.bufs|
    requires forall i | 0 <= i < |chain| :: pos[i] > 0 && chain[i].at.buf != q.list[0]
    ensures ChainPlaced(Recycled(q), chain, Lowered(pos)) && ChainLinked(Recycled(q).bufs, chain)
    ensures BranchOf(Recycled(q).bufs, chain[0]) == BranchOf(q.bufs, chain[0])
  {
    var r, low := Recycled(q), Lowered(pos);
    forall i | 0 <= i < |chain| ensures Untouched(q.bufs, r.bufs, chain[i]) {
      PlacedUntouched(q.bufs, r.bufs, chain[i]);
    }
    hide Untouched, Placed, Precedes, ChainLinked, BranchOf;
    LinkedUntouched(q.bufs, r.bufs, chain);
    forall i | 0 <= i < |chain| ensures low[i] < |r.list| && r.list[low[i]] == chain[i].at.buf {
      assert low[i] + 1 == pos[i];
    }
  }

  lemma LoweredAdjacent(pos: seq<nat>)
    requires Adjacent(pos) && |pos| > 1
    ensures pos[1] == 0 ==> Adjacent(pos[1..])
    ensures pos[1] != 0 ==> Adjacent(Lowered(pos[1..]))
  {
    var rest := pos[1..];
    assert pos[0] <= pos[0 + 1] <= pos[0] + 1;
    forall i | 0 <= i < |rest| - 1 ensures rest[i] <= rest[i + 1] <= rest[i] + 1 {
      assert pos[i + 1] <= pos[i + 1 + 1] <= pos[i + 1] + 1;
    }
  }

  /** Retiring keeps the invariant, and a page is given back only when nothing waits on it. */
  lemma RetiredInv(s: State)
    requires Inv(s) && |s.chain| > 1 && |s.q.list| > 0 && s.q.list[0] < |s.q.bufs| && Placed(s.q.bufs, s.chain[1])
    ensures Inv(Retired(s))
    ensures s.pos[1] != 0 ==> forall i | 0 < i < |s.chain| :: s.chain[i].at.buf != s.q.list[0]
  {
    forall i | 0 < i < |s.chain| && s.pos[1] != 0 ensures s.chain[i].at.buf != s.q.list[0] {
      HeadIsFree(s, i);
    }
    if s.pos[1] == 0 {
      RetiredHere(s);
    } else {
      RetiredNext(s);
    }
  }

  lemma HistorySplit(s: State)
    requires |s.chain| > 1 && s.appended == s.done + s.chain[1..]
    ensures s.appended == s.done + [s.chain[1]] + s.chain[1..][1..]
  {
  }

  lemma RetiredHere(s: State)
    requires Inv(s) && |s.chain| > 1 && |s.q.list| > 0 && s.q.list[0] < |s.q.bufs| && Placed(s.q.bufs, s.chain[1])
    requires s.pos[1] == 0
    ensures Inv(Retired(s))
  {
    hide ChainPlaced, ChainLinked, BuffersOk, ListOk, Adjacent, TailOk, Placed, BranchOf;
    HistorySplit(s);
    DropFirst(s.q, s.chain, s.pos);
    LoweredAdjacent(s.pos);
    SameChain(s.q, s.q.(last := BranchOf(s.q.bufs, s.chain[1])), s.chain[1..], s.pos[1..], s.tailPos);
  }

  /** ctx->last plays no part in where things are. */
  lemma SameChain(q: Queue, r: Queue, chain: seq<Block>, pos: seq<nat>, tailPos: nat)
    requires r == q.(last := r.last) && pos != []
    ensures ChainPlaced(q, chain, pos) <==> ChainPlaced(r, chain, pos)
    ensures TailOk(q, pos[|pos| - 1], tailPos) <==> TailOk(r, pos[|pos| - 1], tailPos)
  {
    hide Placed, Precedes;
  }

  lemma RetiredNext(s: State)
    requires Inv(s) && |s.chain| > 1 && |s.q.list| > 0 && s.q.list[0] < |s.q.bufs| && Placed(s.q.bufs, s.chain[1])
    requires s.pos[1] != 0
    ensures Inv(Retired(s))
  {
    hide *;
    InvParts(s);
    var rest, chain := s.pos[1..], s.chain[1..];
    var q := s.q.(last := BranchOf(s.q.bufs, s.chain[1]));
    forall i | 0 <= i < |chain| ensures rest[i] > 0 && chain[i].at.buf != s.q.list[0] {
      HeadIsFree(s, i + 1);
    }
    HistorySplit(s);
    DropFirst(s.q, s.chain, s.pos);
    LoweredAdjacent(s.pos);
    SameChain(s.q, q, chain, rest, s.tailPos);
    RecycledIs(q);
    RecycledChain(q, chain, rest);
    RecycledList(s.q.list, |s.q.bufs|);
    RecycledTail(q, rest[|rest| - 1], s.tailPos);
    LoweredLast(rest);
    FreedBuffers(s.q.bufs, Recycled(q).bufs, s.q.list[0]);
    TailAhead(s.q, rest[|rest| - 1], s.tailPos);
    RetiredIs(s);
    AllPlaced(Recycled(q), chain, Lowered(rest));
    InvIntro(Retired(s));
  }

  lemma RecycledIs(q: Queue)
    requires |q.list| > 0 && q.list[0] < |q.bufs|
    ensures Recycled(q) == q.(bufs := q.bufs[q.list[0] := q.bufs[q.list[0]].(used := 0)], list := q.list[1..] + [q.list[0]])
  {
  }

  lemma RetiredIs(s: State)
    requires |s.chain| == |s.pos| > 1 && |s.q.list| > 0 && s.q.list[0] < |s.q.bufs| && Placed(s.q.bufs, s.chain[1])
    requires s.pos[1] != 0
    ensures Retired(s) == State(
      Recycled(s.q.(last := BranchOf(s.q.bufs, s.chain[1]))), s.chain[1..], Lowered(s.pos[1..]),
      if s.tailPos > 0 then s.tailPos - 1 else 0, s.appended, s.done + [s.chain[1]])
  {
    hide Recycled, Lowered, BranchOf, Placed;
  }

  lemma AllPlaced(q: Queue, chain: seq<Block>, pos: seq<nat>)
    requires ChainPlaced(q, chain, pos)
    ensures |chain| == |pos| > 0 && forall i | 0 <= i < |chain| :: Placed(q.bufs, chain[i])
  {
    hide Placed, Precedes;
  }

  lemma InvParts(s: State)
    requires Inv(s)
    ensures BuffersOk(s.q.bufs) && ListOk(s.q.list, |s.q.bufs|) && ChainPlaced(s.q, s.chain, s.pos)
    ensures |s.chain| == |s.pos| > 0 && (forall i | 0 <= i < |s.chain| :: Placed(s.q.bufs, s.chain[i]))
    ensures Adjacent(s.pos) && ChainLinked(s.q.bufs, s.chain) && TailOk(s.q, s.pos[|s.pos| - 1], s.tailPos)
    ensures s.q.last == BranchOf(s.q.bufs, s.chain[0])
    ensures s.q.prev == s.chain[|s.chain| - 1].at && s.q.prevZ == s.chain[|s.chain| - 1].z
    ensures s.q.total == PAGE * |s.q.bufs| <= ALLOCATION_LIMIT && s.appended == s.done + s.chain[1..]
  {
    hide BuffersOk, ListOk, Adjacent, ChainLinked, TailOk, Placed, Precedes, BranchOf;
  }

  lemma InvIntro(s: State)
    requires BuffersOk(s.q.bufs) && ListOk(s.q.list, |s.q.bufs|) && ChainPlaced(s.q, s.chain, s.pos)
    requires |s.chain| == |s.pos| > 0 && (forall i | 0 <= i < |s.chain| :: Placed(s.q.bufs, s.chain[i]))
    requires Adjacent(s.pos) && ChainLinked(s.q.bufs, s.chain) && TailOk(s.q, s.pos[|s.pos| - 1], s.tailPos)
    requires s.q.last == BranchOf(s.q.bufs, s.chain[0])
    requires s.q.prev == s.chain[|s.chain| - 1].at && s.q.prevZ == s.chain[|s.chain| - 1].z
    requires s.q.total == PAGE * |s.q.bufs| <= ALLOCATION_LIMIT && s.appended == s.done + s.chain[1..]
    ensures Inv(s)
  {
    hide BuffersOk, ListOk, Adjacent, ChainLinked, TailOk, Placed, Precedes, BranchOf;
  }

  lemma LoweredLast(pos: seq<nat>)
    requires pos != [] && pos[|pos| - 1] > 0
    ensures Lowered(pos)[|pos| - 1] == pos[|pos| - 1] - 1
  {
  }

  lemma TailAhead(q: Queue, lastPos: nat, tailPos: nat)
    requires TailOk(q, lastPos, tailPos)
    ensures lastPos <= tailPos
  {
  }

  lemma FreedBuffers(bufs: seq<Buffer>, bufs': seq<Buffer>, k: nat)
    requires BuffersOk(bufs) && k < |bufs| && bufs' == bufs[k := bufs[k].(used := 0)]
    ensures BuffersOk(bufs')
  {
    assert BufferOk(bufs[k]);
    FilledBuffers(bufs, bufs', k);
  }

  // ---- the program as the device sees it -----------------------------------

  /** A bus address lies in the data of buffer `k`. */
  predicate AddressIn(b: Buffer, address: nat) { b.bus <= address < b.bus + 16 * CAPACITY }

  /** Starting from a branch word, addresses alone lead to exactly these blocks, the last of
      which has an empty branch. */
  ghost predicate Program(bufs: seq<Buffer>, word: nat, blocks: seq<Block>)
    decreases |blocks|
  {
    if blocks == [] then word == 0
    else
      var b := blocks[0];
      && Placed(bufs, b) && word != 0 && word % 16 == b.z && word - word % 16 == Address(bufs, b.at)
      && (forall k | 0 <= k < |bufs| :: AddressIn(bufs[k], word - word % 16) <==> k == b.at.buf)
      && Program(bufs, BranchValue(bufs, b), blocks[1..])
  }

  lemma OnlyBuffer(bufs: seq<Buffer>, b: Block, k: nat)
    requires BuffersOk(bufs) && Placed(bufs, b) && k < |bufs|
    ensures AddressIn(bufs[k], Address(bufs, b.at)) <==> k == b.at.buf
  {
    var j := b.at.buf;
    if k != j {
      assert Apart(bufs[if k < j then k else j], bufs[if k < j then j else k]);
    }
  }

  lemma {:induction false} ChainIsProgram(bufs: seq<Buffer>, chain: seq<Block>, i: nat)
    requires BuffersOk(bufs) && i < |chain| && forall k | 0 <= k < |chain| :: Placed(bufs, chain[k])
    requires ChainLinked(bufs, chain)
    ensures Program(bufs, BranchValue(bufs, chain[i]), chain[i + 1..])
    decreases |chain| - i
  {
    hide Placed, BuffersOk, BranchValue, LinkTo, AddressIn;
    if i + 1 < |chain| {
      var b, rest := chain[i + 1], chain[i + 1..];
      ChainIsProgram(bufs, chain, i + 1);
      assert rest[0] == b && rest[1..] == chain[i + 2..];
      assert BranchValue(bufs, chain[i]) == LinkTo(bufs, chain[i + 1]);
      BufferHolds(bufs, b);
      LinkParts(bufs, b);
      forall k | 0 <= k < |bufs| ensures AddressIn(bufs[k], Address(bufs, b.at)) <==> k == b.at.buf {
        OnlyBuffer(bufs, b, k);
      }
    }
  }

  lemma BufferHolds(bufs: seq<Buffer>, b: Block)
    requires BuffersOk(bufs) && Placed(bufs, b)
    ensures b.at.buf < |bufs| && BufferOk(bufs[b.at.buf])
  {
  }

  /** Following branch addresses from ctx->last, the device finds exactly the waiting blocks. */
  lemma DeviceSeesQueue(s: State)
    requires Inv(s)
    ensures InData(s.q.bufs, s.q.last) && s.chain != []
    ensures Program(s.q.bufs, Load(s.q.bufs, s.q.last).branch, s.chain[1..])
  {
    hide Program, TailOk, ListOk;
    ChainIsProgram(s.q.bufs, s.chain, 0);
  }

  // ---- whole runs ----------------------------------------------------------

  lemma MakeRoomInv(s: State, n: nat, alloc: Option<Buffer>)
    requires Inv(s) && (alloc.Some? ==> Allocatable(s.q.bufs, alloc.value))
    ensures s.q.tail < |s.q.bufs|
    ensures var r := MakeRoom(s, n, alloc); r.Some? ==>
      && Inv(r.value) && n <= CAPACITY && r.value.q.tail < |r.value.q.bufs| && Room(r.value, n)
      && |r.value.q.bufs[r.value.q.tail].data| == CAPACITY
      && r.value.chain == s.chain && r.value.appended == s.appended && r.value.done == s.done
  {
    hide Inv, Allocatable;
    TailFacts(s);
    if n <= CAPACITY && !Room(s, n) {
      if s.tailPos + 1 < |s.q.list| {
        AdvancedInv(s);
        AdvancedRoom(s, n);
      } else if s.q.total < ALLOCATION_LIMIT && alloc.Some? {
        AllocatedInv(s, alloc.value);
        AdvancedInv(Allocated(s, alloc.value));
        AdvancedRoom(Allocated(s, alloc.value), n);
      }
    }
  }

  /** The page after the tail is empty. */
  lemma AdvancedRoom(s: State, n: nat)
    requires Inv(s) && s.tailPos + 1 < |s.q.list| && n <= CAPACITY
    ensures var t := Advanced(s);
      && t.q.tail < |t.q.bufs| && Room(t, n) && |t.q.bufs[t.q.tail].data| == CAPACITY
  {
    hide ChainPlaced, ChainLinked, Adjacent;
    assert BufferOk(s.q.bufs[s.q.list[s.tailPos + 1]]);
  }

  /** The device reports on a descriptor. */
  function Reported(s: State, p: Ptr, resCount: nat, status: nat): State
    requires InData(s.q.bufs, p)
  {
    var b := s.q.bufs[p.buf];
    s.(q := s.q.(bufs := s.q.bufs[p.buf := b.(data := b.data[p.slot :=
      b.data[p.slot].(resCount := resCount, transferStatus := status)])]))
  }

  lemma ReportedInv(s: State, p: Ptr, resCount: nat, status: nat)
    requires Inv(s) && InData(s.q.bufs, p)
    ensures Inv(Reported(s, p, resCount, status))
  {
    var t := Reported(s, p, resCount, status);
    assert BufferOk(s.q.bufs[p.buf]);
    InvParts(s);
    hide Inv, BuffersOk, ListOk, Adjacent, ChainLinked, TailOk, ChainPlaced;
    forall i | 0 <= i < |s.chain| ensures Untouched(s.q.bufs, t.q.bufs, s.chain[i]) {
      assert Placed(s.q.bufs, s.chain[i]);
    }
    hide Untouched;
    RewrittenInv(s, t.q.bufs, p.buf);
  }

  /** The device stores received header data behind the descriptors of a chained block. */
  function Deposited(s: State, i: nat, k: nat, d: Descriptor): State
    requires i < |s.chain| && InData(s.q.bufs, HeaderSlot(s.chain[i], k))
  {
    var p := HeaderSlot(s.chain[i], k);
    var b := s.q.bufs[p.buf];
    s.(q := s.q.(bufs := s.q.bufs[p.buf := b.(data := b.data[p.slot := d])]))
  }

  function HeaderSlot(b: Block, k: nat): Ptr { Ptr(b.at.buf, b.at.slot + b.z + k) }

  lemma DepositUntouched(s: State, i: nat, k: nat, d: Descriptor, j: nat)
    requires Inv(s) && i < |s.chain| && k < s.chain[i].extra && j < |s.chain|
    ensures InData(s.q.bufs, HeaderSlot(s.chain[i], k)) && Placed(s.q.bufs, s.chain[j])
    ensures Untouched(s.q.bufs, Deposited(s, i, k, d).q.bufs, s.chain[j])
    ensures KeepsProgram(s.q.bufs, Deposited(s, i, k, d).q.bufs, s.chain[j])
  {
    hide ChainLinked, Adjacent, ListOk, TailOk, BuffersOk;
    assert Placed(s.q.bufs, s.chain[i]) && Placed(s.q.bufs, s.chain[j]);
    assert i != j ==> Precedes(s.chain[if i < j then i else j], s.chain[if i < j then j else i]);
  }

  lemma DepositedInv(s: State, i: nat, k: nat, d: Descriptor)
    requires Inv(s) && i < |s.chain| && k < s.chain[i].extra
    ensures InData(s.q.bufs, HeaderSlot(s.chain[i], k)) && Inv(Deposited(s, i, k, d))
  {
    hide Inv, Untouched, KeepsProgram;
    DepositUntouched(s, i, k, d, i);
    var t := Deposited(s, i, k, d);
    forall j | 0 <= j < |s.chain| ensures Untouched(s.q.bufs, t.q.bufs, s.chain[j]) {
      DepositUntouched(s, i, k, d, j);
    }
    RewrittenInv(s, t.q.bufs, s.chain[i].at.buf);
  }

  /** What can happen to a context, in any order.  A submission is refused if there is no room;
      a reservation need not be followed by an append. */
  datatype Op =
    | Reserve(n: nat, alloc: Option<Buffer>)
    | Submit(contents: seq<Descriptor>, z: nat, alloc: Option<Buffer>)
    | Report(p: Ptr, resCount: nat, status: nat)
    | Deposit(i: nat, k: nat, d: Descriptor)
    | Callback(ok: bool)

  /** The branch descriptor of a block, given by its contents. */
  function BranchSlot(contents: seq<Descriptor>, z: nat): nat
    requires 0 < z <= |contents|
  {
    if z == 2 && BranchAlways(contents[0]) then 0 else z - 1
  }

  ghost predicate Legal(s: State, op: Op) {
    match op
    case Reserve(_, alloc) => alloc.Some? ==> Allocatable(s.q.bufs, alloc.value)
    case Submit(contents, z, alloc) =>
      && (alloc.Some? ==> Allocatable(s.q.bufs, alloc.value))
      && 1 <= z <= 15 && z <= |contents| && contents[BranchSlot(contents, z)].branch == 0
    case Report(p, _, _) => InData(s.q.bufs, p)
    case Deposit(i, k, _) => i < |s.chain| && k < s.chain[i].extra
    case Callback(_) => true
  }

  ghost function ReserveStep(s: State, n: nat, alloc: Option<Buffer>): (t: State)
    requires Inv(s) && (alloc.Some? ==> Allocatable(s.q.bufs, alloc.value))
    ensures Inv(t)
  {
    MakeRoomInv(s, n, alloc);
    var r := MakeRoom(s, n, alloc);
    if r.None? then s else FilledInv(r.value, Zeros(n)); Filled(r.value, Zeros(n))
  }

  ghost function SubmitStep(s: State, contents: seq<Descriptor>, z: nat, alloc: Option<Buffer>, quirk: bool): (t: State)
    requires Inv(s) && Legal(s, Submit(contents, z, alloc))
    ensures Inv(t)
  {
    MakeRoomInv(s, |contents|, alloc);
    var r := MakeRoom(s, |contents|, alloc);
    if r.None? then s else
    SubmitInv(r.value, contents, z, quirk);
    Appended(Filled(r.value, contents), z, |contents| - z, quirk)
  }

  ghost function CallbackStep(s: State, ok: bool): (t: State)
    requires Inv(s)
    ensures Inv(t)
  {
    LocatedIsNext(s);
    if |s.chain| == 1 || !ok then s else RetiredInv(s); Retired(s)
  }

  ghost function Step(s: State, op: Op, quirk: bool): (t: State)
    requires Inv(s) && Legal(s, op)
    ensures Inv(t)
  {
    match op
    case Reserve(n, alloc) => ReserveStep(s, n, alloc)
    case Submit(contents, z, alloc) => SubmitStep(s, contents, z, alloc, quirk)
    case Report(p, resCount, status) => ReportedInv(s, p, resCount, status); Reported(s, p, resCount, status)
    case Deposit(i, k, d) => DepositedInv(s, i, k, d); Deposited(s, i, k, d)
    case Callback(ok) => CallbackStep(s, ok)
  }

  lemma SubmitInv(s: State, contents: seq<Descriptor>, z: nat, quirk: bool)
    requires Inv(s) && s.q.tail < |s.q.bufs| && |s.q.bufs[s.q.tail].data| == CAPACITY && Free(s).slot + |contents| <= CAPACITY
    requires 1 <= z <= 15 && z <= |contents| && contents[BranchSlot(contents, z)].branch == 0
    ensures var t := Filled(s, contents);
      && t.q.tail < |t.q.bufs| && t.q.prev.buf < |t.q.bufs| && t.q.prevZ > 0 && Free(t) == Free(s)
      && t.q.prev.slot + t.q.prevZ <= |t.q.bufs[t.q.prev.buf].data|
      && Inv(Appended(t, z, |contents| - z, quirk))
  {
    hide *;
    var t := Filled(s, contents);
    FilledInv(s, contents);
    FilledReady(s, contents, z);
    TailFacts(t);
    AppendedInv(t, z, |contents| - z, quirk);
  }

  lemma FilledReady(s: State, contents: seq<Descriptor>, z: nat)
    requires s.q.tail < |s.q.bufs| && |s.q.bufs[s.q.tail].data| == CAPACITY && Free(s).slot + |contents| <= CAPACITY
    requires 1 <= z <= 15 && z <= |contents| && contents[BranchSlot(contents, z)].branch == 0
    ensures var t := Filled(s, contents);
      && t.q.tail == s.q.tail < |t.q.bufs| && |t.q.bufs[t.q.tail].data| == CAPACITY && Free(t) == Free(s)
      && Appendable(t, z, |contents| - z)
  {
    var data := Filled(s, contents).q.bufs[s.q.tail].data;
    assert data[Free(s).slot + 0] == contents[0];
    assert data[Free(s).slot + BranchSlot(contents, z)] == contents[BranchSlot(contents, z)];
  }

  /** The blocks that have been appended and not been retired. */
  function Waiting(s: State): seq<Block>
    requires s.chain != []
  {
    s.chain[1..]
  }

  /** The block's memory, header slots included, differs at most in branch addresses. */
  ghost predicate KeepsData(bufs: seq<Buffer>, bufs': seq<Buffer>, b: Block) {
    && b.at.buf < |bufs| <= |bufs'| && |bufs[b.at.buf].data| == |bufs'[b.at.buf].data| >= End(b)
    && forall k | b.at.slot <= k < End(b) ::
      bufs'[b.at.buf].data[k] == bufs[b.at.buf].data[k].(branch := bufs'[b.at.buf].data[k].branch)
  }

  /** The descriptors of the block are the owner's: only what the device reports and branch
      addresses may differ. */
  ghost predicate KeepsProgram(bufs: seq<Buffer>, bufs': seq<Buffer>, b: Block) {
    && b.at.buf < |bufs| <= |bufs'| && |bufs[b.at.buf].data| == |bufs'[b.at.buf].data| >= End(b)
    && forall k | b.at.slot <= k < b.at.slot + b.z ::
      SameProgram(bufs[b.at.buf].data[k], bufs'[b.at.buf].data[k])
  }

  predicate SameProgram(d: Descriptor, e: Descriptor) {
    d.reqCount == e.reqCount && d.control == e.control && d.dataAddress == e.dataAddress
  }

  lemma DataIsProgram(bufs: seq<Buffer>, bufs': seq<Buffer>, b: Block)
    requires KeepsData(bufs, bufs', b)
    ensures KeepsProgram(bufs, bufs', b)
  {
  }

  lemma ReportKeeps(s: State, p: Ptr, resCount: nat, status: nat, i: nat)
    requires Inv(s) && InData(s.q.bufs, p) && i < |s.chain|
    ensures KeepsProgram(s.q.bufs, Reported(s, p, resCount, status).q.bufs, s.chain[i])
  {
    NonEmpty(s);
    BelowFree(s, i);
  }

  lemma FilledKeeps(s: State, contents: seq<Descriptor>, i: nat)
    requires Inv(s) && s.q.tail < |s.q.bufs| && |s.q.bufs[s.q.tail].data| == CAPACITY && Free(s).slot + |contents| <= CAPACITY
    requires i < |s.chain|
    ensures KeepsData(s.q.bufs, Filled(s, contents).q.bufs, s.chain[i])
  {
    BelowFree(s, i);
  }

  lemma AppendedKeeps(s: State, z: nat, extra: nat, quirk: bool, b: Block)
    requires s.q.tail < |s.q.bufs| && s.q.prev.buf < |s.q.bufs| && s.q.prevZ > 0
    requires s.q.prev.slot + s.q.prevZ <= |s.q.bufs[s.q.prev.buf].data|
    requires b.at.buf < |s.q.bufs| && End(b) <= |s.q.bufs[b.at.buf].data|
    ensures KeepsData(s.q.bufs, Appended(s, z, extra, quirk).q.bufs, b)
  {
    hide Chained;
    var bufs := Claimed(s.q.bufs, s.q.tail, z + extra);
    var address := Address(bufs, Free(s)) + z;
    var r := Chained(bufs, s.q.prev, s.q.prevZ, address, quirk);
    ChainedBuffers(bufs, s.q.prev, s.q.prevZ, address, quirk, b.at.buf);
    forall k | b.at.slot <= k < End(b)
      ensures r[b.at.buf].data[k] == bufs[b.at.buf].data[k].(branch := r[b.at.buf].data[k].branch)
    {
      ChainedAt(bufs, s.q.prev, s.q.prevZ, address, quirk, Ptr(b.at.buf, k));
    }
  }

  lemma MakeRoomKeeps(s: State, n: nat, alloc: Option<Buffer>, i: nat)
    requires Inv(s) && s.q.tail < |s.q.bufs| && i < |s.chain|
    ensures Placed(s.q.bufs, s.chain[i])
    ensures var r := MakeRoom(s, n, alloc); r.Some? ==>
      |s.q.bufs| <= |r.value.q.bufs| && r.value.q.bufs[s.chain[i].at.buf] == s.q.bufs[s.chain[i].at.buf]
  {
    hide ChainLinked, BuffersOk, ListOk, Adjacent, TailOk;
  }

  lemma CallbackKeeps(s: State, ok: bool, i: nat)
    requires Inv(s) && i < |s.chain|
    ensures KeepsData(s.q.bufs, CallbackStep(s, ok).q.bufs, s.chain[i])
  {
    hide Inv, BranchOf, Lowered;
    LocatedIsNext(s);
    NonEmpty(s);
    BelowFree(s, i);
  }

  lemma ReserveKeeps(s: State, n: nat, alloc: Option<Buffer>, i: nat)
    requires Inv(s) && Legal(s, Reserve(n, alloc)) && i < |s.chain|
    ensures KeepsData(s.q.bufs, ReserveStep(s, n, alloc).q.bufs, s.chain[i])
  {
    hide Inv, MakeRoom, Allocatable, Filled;
    TailFacts(s);
    MakeRoomInv(s, n, alloc);
    MakeRoomKeeps(s, n, alloc, i);
    var r := MakeRoom(s, n, alloc);
    if r.Some? {
      FilledKeeps(r.value, Zeros(n), i);
    }
  }

  lemma SubmitStepKeeps(s: State, contents: seq<Descriptor>, z: nat, alloc: Option<Buffer>, quirk: bool, i: nat)
    requires Inv(s) && Legal(s, Submit(contents, z, alloc)) && i < |s.chain|
    ensures KeepsData(s.q.bufs, SubmitStep(s, contents, z, alloc, quirk).q.bufs, s.chain[i])
  {
    hide Inv, MakeRoom, Allocatable, Filled, Appended;
    TailFacts(s);
    MakeRoomInv(s, |contents|, alloc);
    MakeRoomKeeps(s, |contents|, alloc, i);
    var r := MakeRoom(s, |contents|, alloc);
    if r.Some? {
      SubmitKeeps(r.value, contents, z, quirk, i);
    }
  }

  /** Until it is retired, nothing touches the memory of an appended block but its branch
      addresses and what the device itself reports or stores: no page is reused while blocks
      on it wait. */
  lemma StepKeepsData(s: State, op: Op, quirk: bool, i: nat)
    requires Inv(s) && Legal(s, op) && i < |s.chain|
    ensures KeepsProgram(s.q.bufs, Step(s, op, quirk).q.bufs, s.chain[i])
    ensures !op.Report? && !op.Deposit? ==> KeepsData(s.q.bufs, Step(s, op, quirk).q.bufs, s.chain[i])
  {
    hide Inv, KeepsData, KeepsProgram, ReserveStep, SubmitStep, CallbackStep, Reported, Deposited;
    match op {
      case Reserve(n, alloc) => ReserveKeeps(s, n, alloc, i);
      case Submit(contents, z, alloc) => SubmitStepKeeps(s, contents, z, alloc, quirk, i);
      case Callback(ok) => CallbackKeeps(s, ok, i);
      case Report(p, resCount, status) => ReportKeeps(s, p, resCount, status, i);
      case Deposit(j, k, d) => DepositUntouched(s, j, k, d, i);
    }
    if !op.Report? && !op.Deposit? {
      DataIsProgram(s.q.bufs, Step(s, op, quirk).q.bufs, s.chain[i]);
    }
  }

  lemma SubmitKeeps(s: State, contents: seq<Descriptor>, z: nat, quirk: bool, i: nat)
    requires Inv(s) && s.q.tail < |s.q.bufs| && |s.q.bufs[s.q.tail].data| == CAPACITY && Free(s).slot + |contents| <= CAPACITY
    requires 1 <= z <= 15 && z <= |contents| && contents[BranchSlot(contents, z)].branch == 0 && i < |s.chain|
    ensures var t := Filled(s, contents);
      && t.q.tail < |t.q.bufs| && t.q.prev.buf < |t.q.bufs| && t.q.prevZ > 0
      && t.q.prev.slot + t.q.prevZ <= |t.q.bufs[t.q.prev.buf].data|
      && KeepsData(s.q.bufs, Appended(t, z, |contents| - z, quirk).q.bufs, s.chain[i])
  {
    hide *;
    var t := Filled(s, contents);
    SubmitInv(s, contents, z, quirk);
    FilledKeeps(s, contents, i);
    KeepsBounds(s.q.bufs, t.q.bufs, s.chain[i]);
    AppendedKeeps(t, z, |contents| - z, quirk, s.chain[i]);
    KeepsTwice(s.q.bufs, t.q.bufs, Appended(t, z, |contents| - z, quirk).q.bufs, s.chain[i]);
  }

  lemma KeepsBounds(x: seq<Buffer>, y: seq<Buffer>, b: Block)
    requires KeepsData(x, y, b)
    ensures b.at.buf < |y| && End(b) <= |y[b.at.buf].data|
  {
  }

  lemma KeepsTwice(x: seq<Buffer>, y: seq<Buffer>, z: seq<Buffer>, b: Block)
    requires KeepsData(x, y, b) && KeepsData(y, z, b)
    ensures KeepsData(x, z, b)
  {
  }

  /** `b` was put at the end. */
  ghost predicate Pushed(s: State, t: State, b: Block)
    requires s.chain != [] && t.chain != []
  {
    Waiting(t) == Waiting(s) + [b] && t.done == s.done && t.appended == s.appended + [b]
  }

  ghost predicate PushedNew(s: State, t: State, z: nat, extra: nat)
    requires s.chain != [] && t.chain != []
  {
    t.appended != [] && var b := t.appended[|t.appended| - 1]; b.z == z && b.extra == extra && Pushed(s, t, b)
  }

  lemma NonEmpty(s: State)
    requires Inv(s)
    ensures s.chain != [] && |s.pos| == |s.chain| && s.q.tail < |s.q.bufs|
  {
    TailFacts(s);
  }

  lemma SubmitPushes(s: State, contents: seq<Descriptor>, z: nat, alloc: Option<Buffer>, quirk: bool)
    requires Inv(s) && Legal(s, Submit(contents, z, alloc)) && s.chain != [] && s.q.tail < |s.q.bufs|
    ensures var t, r := SubmitStep(s, contents, z, alloc, quirk), MakeRoom(s, |contents|, alloc);
      && t.chain != [] && (r.None? ==> t == s)
      && (r.Some? ==> r.value.q.tail < |r.value.q.bufs| && Pushed(s, t, Block(Free(r.value), z, |contents| - z)))
  {
    hide Inv, MakeRoom, Allocatable, Chained, Store;
    MakeRoomInv(s, |contents|, alloc);
    var r := MakeRoom(s, |contents|, alloc);
    if r.Some? {
      SubmitInv(r.value, contents, z, quirk);
      assert (s.chain + [Block(Free(r.value), z, |contents| - z)])[1..] == s.chain[1..] + [Block(Free(r.value), z, |contents| - z)];
    }
  }

  lemma ReserveIsQuiet(s: State, n: nat, alloc: Option<Buffer>)
    requires Inv(s) && Legal(s, Reserve(n, alloc))
    ensures var t := ReserveStep(s, n, alloc); t.chain == s.chain && t.done == s.done && t.appended == s.appended
  {
    hide Inv, MakeRoom, Allocatable;
    MakeRoomInv(s, n, alloc);
  }

  lemma CallbackPops(s: State, ok: bool)
    requires Inv(s) && s.chain != []
    ensures var t := CallbackStep(s, ok);
      && t.chain != []
      && (Waiting(s) == [] || !ok ==> t == s)
      && (Waiting(s) != [] && ok ==>
          t.done == s.done + [Waiting(s)[0]] && Waiting(t) == Waiting(s)[1..] && t.appended == s.appended)
  {
    hide Inv, BranchOf, Recycled;
    LocatedIsNext(s);
    NonEmpty(s);
  }

  /** One step of the queue is one step of a FIFO of blocks. */
  lemma StepIsFifo(s: State, op: Op, quirk: bool)
    requires Inv(s) && Legal(s, op)
    ensures var t := Step(s, op, quirk);
      s.chain != [] && t.chain != [] && match op
      case Reserve(_, _) => Waiting(t) == Waiting(s) && t.done == s.done && t.appended == s.appended
      case Report(_, _, _) => Waiting(t) == Waiting(s) && t.done == s.done && t.appended == s.appended
      case Deposit(_, _, _) => Waiting(t) == Waiting(s) && t.done == s.done && t.appended == s.appended
      case Submit(contents, z, alloc) =>
        && s.q.tail < |s.q.bufs|
        && (if MakeRoom(s, |contents|, alloc).None? then t == s
            else PushedNew(s, t, z, |contents| - z))
      case Callback(ok) =>
        if Waiting(s) == [] || !ok then t == s
        else t.done == s.done + [Waiting(s)[0]] && Waiting(t) == Waiting(s)[1..] && t.appended == s.appended
  {
    hide Inv, ReserveStep, SubmitStep, CallbackStep, MakeRoom;
    NonEmpty(s);
    match op
    case Reserve(n, alloc) => ReserveIsQuiet(s, n, alloc);
    case Report(_, _, _) =>
    case Deposit(_, _, _) =>
    case Submit(contents, z, alloc) => SubmitPushes(s, contents, z, alloc, quirk);
    case Callback(ok) => CallbackPops(s, ok);
  }

  ghost predicate LegalRun(s: State, ops: seq<Op>, quirk: bool)
    requires Inv(s)
    decreases |ops|
  {
    ops != [] ==> Legal(s, ops[0]) && LegalRun(Step(s, ops[0], quirk), ops[1..], quirk)
  }

  ghost function Run(s: State, ops: seq<Op>, quirk: bool): (t: State)
    requires Inv(s) && LegalRun(s, ops, quirk)
    ensures Inv(t)
    decreases |ops|
  {
    if ops == [] then s else Run(Step(s, ops[0], quirk), ops[1..], quirk)
  }

  /** What context_init leaves behind: a dummy block that looks finished. */
  const DUMMY: Descriptor := Descriptor(0, 0x1000, 0, 0, 0, 0x8011)

  function Initial(m: Buffer): State
    requires |m.data| == CAPACITY
  {
    State(Queue([Buffer(m.bus, 1, [DUMMY] + m.data[1..])], [0], 0, Ptr(0, 0), Ptr(0, 0), 1, PAGE),
          [Block(Ptr(0, 0), 1, 0)], [0], 0, [], [])
  }

  lemma InitialInv(m: Buffer)
    requires BufferOk(m.(used := 0))
    ensures Inv(Initial(m))
  {
    var s := Initial(m);
    assert s.chain[1..] == [];
  }

  /** Over any run, the blocks reported as done are the appended ones, in order and each once;
      those not yet reported are still chained, in order; histories only grow. */
  lemma {:induction false} RunIsFifo(s: State, ops: seq<Op>, quirk: bool)
    requires Inv(s) && LegalRun(s, ops, quirk)
    ensures var t := Run(s, ops, quirk);
      && t.chain != [] && t.appended == t.done + Waiting(t)
      && t.done == t.appended[..|t.done|]
      && s.done <= t.done && s.appended <= t.appended
    decreases |ops|
  {
    hide Inv, Step, Legal;
    if ops == [] {
      HistoryIs(s);
    } else {
      var s1 := Step(s, ops[0], quirk);
      RunIsFifo(s1, ops[1..], quirk);
      HistoryGrows(s, ops[0], quirk);
      var t := Run(s1, ops[1..], quirk);
      PrefixTrans(s.done, s1.done, t.done);
      PrefixTrans(s.appended, s1.appended, t.appended);
    }
  }

  /** Steps of the device. */
  predicate ByDevice(op: Op) { op.Report? || op.Deposit? }

  /** Over any run, a block that is not retired by its end still holds the program its owner
      wrote, and everything its owner wrote if the device did not store anything. */
  lemma {:induction false} RunKeepsData(s: State, ops: seq<Op>, quirk: bool, j: nat)
    requires Inv(s) && LegalRun(s, ops, quirk) && |Run(s, ops, quirk).done| <= j < |s.appended|
    ensures KeepsProgram(s.q.bufs, Run(s, ops, quirk).q.bufs, s.appended[j])
    ensures (forall op | op in ops :: !ByDevice(op)) ==> KeepsData(s.q.bufs, Run(s, ops, quirk).q.bufs, s.appended[j])
    decreases |ops|
  {
    hide Inv, Step, Legal, KeepsData, KeepsProgram;
    RunIsFifo(s, ops, quirk);
    HistoryIs(s);
    var i := j - |s.done| + 1;
    assert s.appended[j] == s.chain[i];
    if ops == [] {
      KeepsSame(s, i);
    } else {
      var s1 := Step(s, ops[0], quirk);
      var bufs := Run(s1, ops[1..], quirk).q.bufs;
      assert ops[0] in ops && forall op | op in ops[1..] :: op in ops;
      StepKeepsData(s, ops[0], quirk, i);
      HistoryGrows(s, ops[0], quirk);
      RunKeepsData(s1, ops[1..], quirk, j);
      ProgramTwice(s.q.bufs, s1.q.bufs, bufs, s.appended[j]);
      if forall op | op in ops :: !ByDevice(op) {
        KeepsTwice(s.q.bufs, s1.q.bufs, bufs, s.appended[j]);
      }
    }
  }

  lemma ProgramTwice(x: seq<Buffer>, y: seq<Buffer>, z: seq<Buffer>, b: Block)
    requires KeepsProgram(x, y, b) && KeepsProgram(y, z, b)
    ensures KeepsProgram(x, z, b)
  {
  }

  /** A block holds what was submitted, apart from branch addresses. */
  ghost predicate HoldsContents(bufs: seq<Buffer>, b: Block, contents: seq<Descriptor>) {
    && b.z + b.extra == |contents| && b.at.buf < |bufs| && End(b) <= |bufs[b.at.buf].data|
    && forall k | 0 <= k < |contents| ::
      bufs[b.at.buf].data[b.at.slot + k] == contents[k].(branch := bufs[b.at.buf].data[b.at.slot + k].branch)
  }

  /** What is submitted is what the new block holds. */
  lemma SubmitHolds(s: State, contents: seq<Descriptor>, z: nat, alloc: Option<Buffer>, quirk: bool)
    requires Inv(s) && Legal(s, Submit(contents, z, alloc)) && s.q.tail < |s.q.bufs|
    requires MakeRoom(s, |contents|, alloc).Some?
    ensures var t := SubmitStep(s, contents, z, alloc, quirk);
      t.appended != [] && HoldsContents(t.q.bufs, t.appended[|t.appended| - 1], contents)
  {
    hide Inv, MakeRoom, Allocatable, Chained, KeepsData;
    MakeRoomInv(s, |contents|, alloc);
    var r := MakeRoom(s, |contents|, alloc).value;
    SubmitInv(r, contents, z, quirk);
    var f, b := Filled(r, contents), Block(Free(r), z, |contents| - z);
    FilledHolds(r, contents);
    AppendedKeeps(f, z, |contents| - z, quirk, b);
    HoldsKept(f.q.bufs, Appended(f, z, |contents| - z, quirk).q.bufs, b, contents);
  }

  lemma HoldsKept(bufs: seq<Buffer>, bufs': seq<Buffer>, b: Block, contents: seq<Descriptor>)
    requires KeepsData(bufs, bufs', b) && bufs[b.at.buf].data[b.at.slot..End(b)] == contents
    ensures HoldsContents(bufs', b, contents)
  {
    var data := bufs[b.at.buf].data;
    forall k | 0 <= k < |contents| ensures data[b.at.slot + k] == contents[k] {
      assert data[b.at.slot..End(b)][k] == contents[k];
    }
  }

  lemma FilledHolds(s: State, contents: seq<Descriptor>)
    requires s.q.tail < |s.q.bufs| && Free(s).slot + |contents| <= |s.q.bufs[s.q.tail].data|
    ensures var data := Filled(s, contents).q.bufs[s.q.tail].data;
      |data| == |s.q.bufs[s.q.tail].data| && data[Free(s).slot..Free(s).slot + |contents|] == contents
  {
  }

  lemma KeepsSame(s: State, i: nat)
    requires Inv(s) && i < |s.chain|
    ensures KeepsData(s.q.bufs, s.q.bufs, s.chain[i]) && KeepsProgram(s.q.bufs, s.q.bufs, s.chain[i])
  {
    NonEmpty(s);
    BelowFree(s, i);
  }

  lemma PrefixTrans<T>(a: seq<T>, b: seq<T>, c: seq<T>)
    requires a <= b <= c
    ensures a <= c
  {
  }

  lemma HistoryIs(s: State)
    requires Inv(s)
    ensures s.chain != [] && s.appended == s.done + Waiting(s) && s.done == s.appended[..|s.done|]
  {
  }

  lemma HistoryGrows(s: State, op: Op, quirk: bool)
    requires Inv(s) && Legal(s, op)
    ensures var t := Step(s, op, quirk); s.done <= t.done && s.appended <= t.appended
  {
    hide Inv, Step, Legal;
    StepIsFifo(s, op, quirk);
  }

  // ---- list links ----------------------------------------------------------

  /** list.next of an entry, None at the end. */
  function Successor(list: seq<nat>, x: nat): Option<nat> {
    if list == [] then None
    else if list[0] == x then (if |list| > 1 then Some(list[1]) else None)
    else Successor(list[1..], x)
  }

  lemma {:induction false} SuccessorAt(list: seq<nat>, p: nat)
    requires p < |list| && forall i, j | 0 <= i < j < |list| :: list[i] != list[j]
    ensures Successor(list, list[p]) == if p + 1 < |list| then Some(list[p + 1]) else None
  {
    if p > 0 {
      assert list[0] != list[p];
      SuccessorAt(list[1..], p - 1);
    }
  }

  /** list_move_tail. */
  function MovedToTail(list: seq<nat>, x: nat): seq<nat> { Without(list, x) + [x] }

  // ---- a whole retirement --------------------------------------------------

  /** The loop of context_retire_descriptors, the callback answering with `results` and then
      with "not done": the new state, and the blocks that were offered. */
  ghost function RetireAll(s: State, results: seq<bool>): (r: (State, seq<Block>))
    requires Inv(s)
    ensures Inv(r.0)
    decreases |s.chain|
  {
    LocatedIsNext(s);
    if |s.chain| == 1 then (s, [])
    else if results == [] || !results[0] then (s, [s.chain[1]])
    else
      RetiredInv(s);
      var r := RetireAll(Retired(s), results[1..]);
      (r.0, [s.chain[1]] + r.1)
  }

  function Successes(results: seq<bool>): (n: nat)
    ensures n <= |results|
  {
    if results == [] || !results[0] then 0 else 1 + Successes(results[1..])
  }

  lemma RetireOnce(s: State, results: seq<bool>)
    requires Inv(s) && |s.chain| == |s.pos| > 1 && results != [] && results[0]
    requires s.q.list != [] && s.q.list[0] < |s.q.bufs| && Placed(s.q.bufs, s.chain[1])
    ensures Inv(Retired(s)) && RetireAll(s, results).0 == RetireAll(Retired(s), results[1..]).0
    ensures RetireAll(s, results).1 == [s.chain[1]] + RetireAll(Retired(s), results[1..]).1
    ensures |Retired(s).chain| == |s.chain| - 1
  {
    hide Inv, BranchOf, Recycled, Lowered, Placed;
    RetiredInv(s);
  }

  lemma RetireStops(s: State, results: seq<bool>)
    requires Inv(s) && |s.chain| > 1 && (results == [] || !results[0])
    ensures RetireAll(s, results) == (s, [s.chain[1]])
  {
    hide Inv, Retired;
  }

  lemma RetireEnds(s: State, results: seq<bool>)
    requires Inv(s) && |s.chain| == 1
    ensures RetireAll(s, results) == (s, [])
  {
    hide Inv, Retired;
  }

  lemma SuccessesStep(results: seq<bool>)
    ensures results == [] || !results[0] ==> Successes(results) == 0
    ensures results != [] && results[0] ==> Successes(results) == Successes(results[1..]) + 1
  {
  }

  /** `k` of the waiting blocks were retired and the next one, if any, was offered in vain. */
  ghost predicate RetiredSome(s: State, r: (State, seq<Block>), k: nat)
    requires s.chain != [] && r.0.chain != [] && k <= |Waiting(s)|
  {
    var w := Waiting(s);
    && r.0.done == s.done + w[..k] && Waiting(r.0) == w[k..] && r.0.appended == s.appended
    && r.1 == w[..Min(k + 1, |w|)]
  }

  lemma RetiredNone(s: State)
    requires s.chain != []
    ensures Waiting(s) == [] ==> RetiredSome(s, (s, []), 0)
    ensures |s.chain| > 1 ==> RetiredSome(s, (s, [s.chain[1]]), 0)
  {
    var w := Waiting(s);
    assert s.done + w[..0] == s.done && w[0..] == w;
  }

  lemma RetiredMore(s: State, t: State, r: (State, seq<Block>), k: nat)
    requires s.chain != [] && t.chain != [] && r.0.chain != [] && k <= |Waiting(t)| && RetiredSome(t, r, k)
    requires Waiting(s) != [] && Waiting(t) == Waiting(s)[1..]
    requires t.done == s.done + [Waiting(s)[0]] && t.appended == s.appended
    ensures RetiredSome(s, (r.0, [Waiting(s)[0]] + r.1), k + 1)
  {
    var w := Waiting(s);
    PrefixShift(s.done, w, k);
    PrefixShift(s.done, w, Min(k + 1, |w| - 1));
  }

  /** The loop offers the waiting blocks in order, retires those reported as done, and stops
      at the first that is not. */
  lemma {:induction false} RetireAllIs(s: State, results: seq<bool>)
    requires Inv(s)
    ensures s.chain != [] && RetireAll(s, results).0.chain != []
    ensures RetiredSome(s, RetireAll(s, results), Min(Successes(results), |Waiting(s)|))
    decreases |s.chain|
  {
    hide Inv, Retired, Placed, RetireAll, Successes, RetiredSome;
    LocatedIsNext(s);
    NonEmpty(s);
    SuccessesStep(results);
    RetiredNone(s);
    if |s.chain| == 1 {
      RetireEnds(s, results);
    } else if results == [] || !results[0] {
      RetireStops(s, results);
    } else {
      RetireOnce(s, results);
      RetiredPops(s);
      RetireAllIs(Retired(s), results[1..]);
      RetiredMore(s, Retired(s), RetireAll(Retired(s), results[1..]), Min(Successes(results[1..]), |s.chain| - 2));
    }
  }

  lemma RetiredPops(s: State)
    requires |s.chain| == |s.pos| > 1 && |s.q.list| > 0 && s.q.list[0] < |s.q.bufs| && Placed(s.q.bufs, s.chain[1])
    ensures var t := Retired(s);
      && t.chain == s.chain[1..] && t.done == s.done + [s.chain[1]] && t.appended == s.appended
      && Waiting(s) != [] && Waiting(s)[0] == s.chain[1] && Waiting(t) == Waiting(s)[1..]
  {
    hide BranchOf, Recycled, Lowered, Placed;
  }

  lemma PrefixShift<T>(d: seq<T>, w: seq<T>, k: nat)
    requires k < |w|
    ensures [w[0]] + w[1..][..k] == w[..k + 1] && w[1..][k..] == w[k + 1..]
    ensures d + [w[0]] + w[1..][..k] == d + w[..k + 1]
  {
    assert [w[0]] + w[1..][..k] == w[..k + 1];
  }
}
