/** struct context of the OHCI driver: the operations on its descriptor buffers, each proved
    to be the step of the queue that it stands for. */
module OhciContext {
  import opened Basics
  import opened DescriptorQueue

  class Context {
    const quirkIrWake: bool
    var bufs: seq<Buffer>
    var bufferList: seq<nat>
    var bufferTail: nat
    var last: Ptr
    var prev: Ptr
    var prevZ: nat
    var totalAllocation: nat
    var currentBus: nat
    ghost var chain: seq<Block>
    ghost var pos: seq<nat>
    ghost var tailPos: nat
    ghost var appended: seq<Block>
    ghost var done: seq<Block>

    ghost function View(): State
      reads this
    {
      State(Queue(bufs, bufferList, bufferTail, last, prev, prevZ, totalAllocation), chain, pos, tailPos, appended, done)
    }

    ghost predicate Valid()
      reads this
    {
      Inv(View())
    }

    /** Keeps the ghost record in step with the specification. */
    ghost method Record(s: State)
      modifies this`chain, this`pos, this`tailPos, this`appended, this`done
      ensures chain == s.chain && pos == s.pos && tailPos == s.tailPos && appended == s.appended && done == s.done
    {
      chain, pos, tailPos, appended, done := s.chain, s.pos, s.tailPos, s.appended, s.done;
    }

    constructor (m: Buffer, quirk: bool)
      requires BufferOk(m.(used := 0))
      ensures Valid() && View() == Initial(m) && quirkIrWake == quirk
    {
      quirkIrWake := quirk;
      bufs := [Buffer(m.bus, 1, [DUMMY] + m.data[1..])];
      bufferList, bufferTail, totalAllocation := [0], 0, PAGE;
      last, prev, prevZ := Ptr(0, 0), Ptr(0, 0), 1;
      currentBus := 0;
      chain, pos, tailPos, appended, done := [Block(Ptr(0, 0), 1, 0)], [0], 0, [], [];
      new;
      InitialInv(m);
    }

    /** context_add_buffer */
    method AddBuffer(alloc: Option<Buffer>) returns (ok: bool)
      requires Valid() && (alloc.Some? ==> Allocatable(bufs, alloc.value))
      modifies this`bufs, this`bufferList, this`totalAllocation
      ensures Valid() && ok == (old(totalAllocation) < ALLOCATION_LIMIT && alloc.Some?)
      ensures View() == if ok then Allocated(old(View()), alloc.value) else old(View())
    {
      hide Inv, Allocatable;
      ghost var s := View();
      if totalAllocation >= ALLOCATION_LIMIT || alloc.None? {
        return false;
      }
      AllocatedInv(s, alloc.value);
      bufs := bufs + [alloc.value.(used := 0)];
      bufferList := bufferList + [|bufs| - 1];
      totalAllocation := totalAllocation + PAGE;
      return true;
    }

    /** context_get_descriptors: fails only if there is no room to be had. */
    method GetDescriptors(z: nat, alloc: Option<Buffer>) returns (d: Option<Ptr>)
      requires Valid() && (alloc.Some? ==> Allocatable(bufs, alloc.value))
      modifies this
      ensures Valid() && bufferTail < |bufs| && old(bufferTail) < |old(bufs)|
      ensures View() == ReserveStep(old(View()), z, alloc)
      ensures d.Some? <==> MakeRoom(old(View()), z, alloc).Some?
      ensures d.Some? ==> d.value == Free(View()) && Room(View(), z)
    {
      hide Inv, Allocatable, Filled;
      ghost var s := View();
      MakeRoomInv(s, z, alloc);
      TailFacts(s);
      d := None;
      if z > CAPACITY {
        return;
      }
      if z > CAPACITY - bufs[bufferTail].used {
        ListLinks(s);
        if Successor(bufferList, bufferTail).None? {
          var ok := AddBuffer(alloc);
          if !ok {
            return;
          }
          ListLinks(View());
        }
        bufferTail := Successor(bufferList, bufferTail).value;
        Record(s.(tailPos := s.tailPos + 1));
      }
      ghost var s1 := View();
      assert MakeRoom(s, z, alloc) == Some(s1);
      FilledInv(s1, Zeros(z));
      StoreIs(s1, Zeros(z));
      d := Some(Ptr(bufferTail, bufs[bufferTail].used));
      bufs := Store(bufs, bufferTail, bufs[bufferTail].used, Zeros(z));
    }

    /** The owner of a reservation writes its descriptors. */
    method Fill(d: Ptr, contents: seq<Descriptor>)
      requires Valid() && bufferTail < |bufs| && d == Free(View()) && Room(View(), |contents|)
      modifies this`bufs
      ensures Valid() && bufferTail < |bufs| && |bufs[bufferTail].data| == CAPACITY && Free(View()) == d
      ensures |old(bufs)[bufferTail].data| == CAPACITY && View() == Filled(old(View()), contents)
    {
      hide Inv, Filled;
      TailFacts(View());
      FilledInv(View(), contents);
      StoreIs(View(), contents);
      bufs := Store(bufs, d.buf, d.slot, contents);
    }

    /** context_append */
    method Append(d: Ptr, z: nat, extra: nat)
      requires Valid() && bufferTail < |bufs| && |bufs[bufferTail].data| == CAPACITY
      requires d == Free(View()) && Appendable(View(), z, extra)
      modifies this`bufs, this`prev, this`prevZ, this`chain, this`pos, this`tailPos, this`appended, this`done
      ensures Valid() && old(prev).buf < |old(bufs)| && old(prevZ) > 0
      ensures old(prev).slot + old(prevZ) <= |old(bufs)[old(prev).buf].data|
      ensures View() == Appended(old(View()), z, extra, quirkIrWake)
    {
      hide Inv, Appendable;
      ghost var s := View();
      TailFacts(s);
      AppendedInv(s, z, extra, quirkIrWake);
      Record(Appended(s, z, extra, quirkIrWake));
      bufs := bufs[bufferTail := bufs[bufferTail].(used := bufs[bufferTail].used + (z + extra))];
      var address := bufs[bufferTail].bus + d.slot * 16 + z;
      var branch := FindBranch(bufs, prev, prevZ);
      bufs := SetBranch(bufs, branch, address);
      if quirkIrWake && branch != prev && InputMore(Load(bufs, prev)) {
        bufs := SetBranch(bufs, prev, address);
      }
      prev, prevZ := d, z;
    }

    /** One round of context_retire_descriptors up to the callback: `desc` is the buffer of
        ctx->last; the result is the next block with its buffer and branch descriptor. */
    method Locate(desc: nat) returns (found: Option<Located>)
      requires Valid() && bufferList != [] && desc == bufferList[0]
      modifies this`currentBus
      ensures Valid() && View() == old(View()) && chain != [] && |pos| == |chain|
      ensures found.None? <==> |chain| == 1
      ensures found.Some? ==>
        && Placed(bufs, chain[1]) && pos[1] < |bufferList|
        && found.value == Located(chain[1].at.buf, chain[1].at, chain[1].z, BranchOf(bufs, chain[1]))
        && (found.value.desc == desc <==> pos[1] == 0)
    {
      hide Inv;
      LocatedIsNext(View());
      NonEmpty(View());
      var word := Load(bufs, last).branch;
      if word == 0 {
        return None;
      }
      HeadOrNext(View());
      var z, address := word % 16, word - word % 16;
      currentBus := address;
      var next := desc;
      if address < bufs[desc].bus || address >= bufs[desc].bus + 16 * bufs[desc].used {
        next := Successor(bufferList, desc).value;
      }
      var d := Ptr(next, (address - bufs[next].bus) / 16);
      return Some(Located(next, d, z, FindBranch(bufs, d, z)));
    }

    /** One round of context_retire_descriptors after a callback that reported the block done. */
    method Retire(oldDesc: nat, found: Located)
      requires Valid() && bufferList != [] && oldDesc == bufferList[0]
      requires |chain| == |pos| > 1 && Placed(bufs, chain[1]) && bufferList[0] < |bufs|
      requires found == Located(chain[1].at.buf, chain[1].at, chain[1].z, BranchOf(bufs, chain[1]))
      requires found.desc == oldDesc <==> pos[1] == 0
      modifies this`bufs, this`bufferList, this`last, this`chain, this`pos, this`tailPos, this`appended, this`done
      ensures Valid() && View() == Retired(old(View()))
      ensures bufferList != [] && bufferList[0] == found.desc
    {
      hide Inv;
      ghost var s := View();
      RetiredInv(s);
      NewHead(s);
      if oldDesc != found.desc {
        bufs := bufs[oldDesc := bufs[oldDesc].(used := 0)];
        bufferList := MovedToTail(bufferList, oldDesc);
      }
      last := found.last;
      Record(Retired(s));
    }

    /** context_retire_descriptors, with the callback's answers given: `calls` are the blocks
        that it was asked about. */
    method RetireDescriptors(results: seq<bool>) returns (calls: seq<Located>)
      requires Valid()
      modifies this
      ensures Valid() && View() == RetireAll(old(View()), results).0
      ensures |calls| == |RetireAll(old(View()), results).1|
      ensures forall i | 0 <= i < |calls| :: var b := RetireAll(old(View()), results).1[i];
        calls[i].d == b.at && calls[i].z == b.z
    {
      hide Inv, Retired, Placed, RetireAll;
      ghost var s := View();
      LocatedIsNext(s);
      calls := [];
      var desc, asked := bufferList[0], 0;
      var found := Locate(desc);
      ghost var offered: seq<Block> := [];
      while found.Some?
        invariant Valid() && asked <= |results| && bufferList != [] && desc == bufferList[0] && bufferList[0] < |bufs|
        invariant |chain| == |pos| > 0 && (found.None? <==> |chain| == 1)
        invariant found.Some? ==>
          && Placed(bufs, chain[1]) && pos[1] < |bufferList|
          && found.value == Located(chain[1].at.buf, chain[1].at, chain[1].z, BranchOf(bufs, chain[1]))
          && (found.value.desc == desc <==> pos[1] == 0)
        invariant RetireAll(s, results).0 == RetireAll(View(), results[asked..]).0
        invariant RetireAll(s, results).1 == offered + RetireAll(View(), results[asked..]).1
        invariant |calls| == |offered|
        invariant forall i | 0 <= i < |calls| :: calls[i].d == offered[i].at && calls[i].z == offered[i].z
        decreases |chain|
      {
        calls := calls + [found.value];
        offered := offered + [chain[1]];
        if asked >= |results| || !results[asked] {
          RetireStops(View(), results[asked..]);
          break;
        }
        RetireOnce(View(), results[asked..]);
        asked := asked + 1;
        Retire(desc, found.value);
        desc := found.value.desc;
        LocatedIsNext(View());
        found := Locate(desc);
      }
      if found.None? {
        RetireEnds(View(), results[asked..]);
      }
    }
  }

  lemma StoreIs(s: State, contents: seq<Descriptor>)
    requires s.q.tail < |s.q.bufs| && |s.q.bufs[s.q.tail].data| == CAPACITY && Free(s).slot + |contents| <= CAPACITY
    ensures var t := Filled(s, contents);
      && t == s.(q := s.q.(bufs := Store(s.q.bufs, s.q.tail, Free(s).slot, contents)))
      && Free(t) == Free(s) && |t.q.bufs[s.q.tail].data| == CAPACITY && t.q.bufs[s.q.tail].used == s.q.bufs[s.q.tail].used
  {
  }

  /** The link of the tail is its neighbour on the list. */
  lemma ListLinks(s: State)
    requires Inv(s)
    ensures Successor(s.q.list, s.q.tail) == if s.tailPos + 1 < |s.q.list| then Some(s.q.list[s.tailPos + 1]) else None
  {
    hide ChainPlaced, ChainLinked, Adjacent, BuffersOk;
    SuccessorAt(s.q.list, s.tailPos);
  }

  lemma HeadOrNext(s: State)
    requires Inv(s) && |s.chain| > 1
    ensures |s.pos| == |s.chain| && s.pos[1] <= 1 && s.pos[1] < |s.q.list|
    ensures s.q.list != [] && s.chain[1].at.buf == s.q.list[s.pos[1]]
    ensures s.pos[1] == 1 ==> s.q.list[1] != s.q.list[0] && Successor(s.q.list, s.q.list[0]) == Some(s.q.list[1])
  {
    hide ChainLinked, BuffersOk, TailOk, Placed;
    assert s.pos[0 + 1] <= s.pos[0] + 1;
    if s.pos[1] == 1 {
      SuccessorAt(s.q.list, 0);
    }
  }

  lemma NewHead(s: State)
    requires Inv(s) && |s.chain| == |s.pos| > 1 && s.q.list != [] && s.q.list[0] < |s.q.bufs| && Placed(s.q.bufs, s.chain[1])
    ensures Retired(s).q.list != [] && Retired(s).q.list[0] == s.chain[1].at.buf
    ensures s.pos[1] != 0 ==> Retired(s).q.list == MovedToTail(s.q.list, s.q.list[0])
  {
    hide Inv, BranchOf, Placed, Lowered;
    HeadOrNext(s);
  }
}
