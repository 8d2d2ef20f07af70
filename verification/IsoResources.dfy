/** struct fw_iso_resources: allocation, update after a bus reset, and release. */
module IsoResources {
  import opened Basics
  import opened IsoManage
  import P = IsoProtocol

  const EBADFD: int := -77
  const ERESTARTSYS: int := -512
  const SCODE_400: nat := 2

  function Align4(n: nat): nat { (n + 3) / 4 * 4 }

  /** Bandwidth units of a packet; one unit is a byte at S400. */
  function PacketBandwidth(maxPayload: nat, speed: nat): nat {
    var bytes := 12 + Align4(maxPayload);
    if speed <= SCODE_400 then bytes * Pow2(SCODE_400 - speed)
    else (bytes + Pow2(speed - SCODE_400) - 1) / Pow2(speed - SCODE_400)
  }

  function Overhead(gapCount: nat): nat { if gapCount < 63 then gapCount * 97 / 10 + 89 else 512 }

  /** The units last as long as the packet, and one unit less would not. */
  lemma PacketFits(maxPayload: nat, speed: nat)
    ensures var u, bytes := PacketBandwidth(maxPayload, speed), 12 + Align4(maxPayload);
      && maxPayload <= Align4(maxPayload) < maxPayload + 4
      && 4 * bytes <= u * Pow2(speed) < 4 * bytes + Pow2(speed)
  {
    var bytes := 12 + Align4(maxPayload);
    if speed <= SCODE_400 {
      assert Pow2(0) == 1 && Pow2(1) == 2 && Pow2(2) == 4;
      assert speed == 0 || speed == 1 || speed == 2;
    } else {
      PowStep(speed);
      RoundUp(bytes, Pow2(speed - SCODE_400));
      Quadruple(PacketBandwidth(maxPayload, speed), Pow2(speed - SCODE_400));
    }
  }

  lemma Quadruple(u: nat, d: nat)
    ensures u * (4 * d) == 4 * (u * d)
  {
  }

  lemma PowStep(speed: nat)
    requires speed > SCODE_400
    ensures Pow2(speed) == 4 * Pow2(speed - SCODE_400)
  {
  }

  lemma RoundUp(n: nat, d: nat)
    requires d > 0
    ensures var q := (n + d - 1) / d; n <= q * d < n + d
  {
    var q, r := (n + d - 1) / d, (n + d - 1) % d;
    assert n + d - 1 == q * d + r;
  }

  /** One attempt of fw_iso_resources_allocate: what the card says, whether the wait after a
      bus reset is interrupted, and what the resource manager answers. */
  datatype Round = Round(generation: nat, gapCount: nat, interrupted: bool, replies: nat -> Reply)

  function Tried(r: P.Resources, round: Round): P.Resources {
    r.(generation := round.generation, overhead := Overhead(round.gapCount))
  }

  /** What a call of fw_iso_resource_manage with these resources returns. */
  function Managed(r: P.Resources, mask: set<nat>, allocate: bool, replies: nat -> Reply): Result {
    ManageCall(r.generation, mask, r.bandwidth + r.overhead, allocate, replies)
  }

  /** Rounds are made until one does not end with -EAGAIN. */
  function Attempts(r: P.Resources, rounds: seq<Round>): (P.Resources, int)
    decreases |rounds|
  {
    if rounds == [] then (r, EAGAIN) else
    var t := Tried(r, rounds[0]);
    if rounds[0].interrupted then (t, ERESTARTSYS) else
    var ch := Managed(t, t.mask, true, rounds[0].replies).channel;
    if ch == EAGAIN then Attempts(t, rounds[1..]) else (P.AfterAllocate(t, ch), ch)
  }

  class FwIsoResources {
    var channelsMask: set<nat>
    var isAllocated: bool
    var channel: nat
    var bandwidth: nat
    var bandwidthOverhead: nat
    var generation: nat

    ghost function View(): P.Resources
      reads this
    {
      P.Resources(channelsMask, isAllocated, channel, bandwidth, bandwidthOverhead, generation)
    }

    constructor ()
      ensures !isAllocated && channelsMask == Range(64)
    {
      channelsMask, isAllocated := Range(64), false;
      channel, bandwidth, bandwidthOverhead, generation := 0, 0, 0, 0;
    }

    /** fw_iso_resources_allocate, for as many rounds as the bus is reset in between. */
    method Allocate(maxPayload: nat, speed: nat, rounds: seq<Round>) returns (ret: int)
      modifies this
      ensures old(isAllocated) ==> ret == EBADFD && View() == old(View())
      ensures !old(isAllocated) ==>
        (View(), ret) == Attempts(old(View()).(bandwidth := PacketBandwidth(maxPayload, speed)), rounds)
    {
      hide ManageCall, PacketBandwidth, Overhead;
      if isAllocated {
        return EBADFD;
      }
      bandwidth := PacketBandwidth(maxPayload, speed);
      ghost var whole := Attempts(View(), rounds);
      var k := 0;
      while k < |rounds|
        invariant k <= |rounds| && !isAllocated && whole == Attempts(View(), rounds[k..])
      {
        generation := rounds[k].generation;
        bandwidthOverhead := Overhead(rounds[k].gapCount);
        if rounds[k].interrupted {
          return ERESTARTSYS;
        }
        var ch, _, _ := ResourceManage(generation, channelsMask, bandwidth + bandwidthOverhead, true, rounds[k].replies);
        if ch != EAGAIN {
          if ch >= 0 {
            channel, isAllocated := ch, true;
          }
          return ch;
        }
        assert rounds[k..][1..] == rounds[k + 1..];
        k := k + 1;
      }
      return EAGAIN;
    }

    /** fw_iso_resources_update */
    method Update(gen: nat, gapCount: nat, replies: nat -> Reply) returns (ret: int)
      modifies this
      ensures !old(isAllocated) ==> ret == 0 && View() == old(View())
      ensures old(isAllocated) ==>
        var t := old(View()).(generation := gen, overhead := Overhead(gapCount));
        ret == Managed(t, {t.channel}, true, replies).channel && View() == P.AfterUpdate(t, ret)
    {
      hide ManageCall, Overhead;
      if !isAllocated {
        return 0;
      }
      generation, bandwidthOverhead := gen, Overhead(gapCount);
      var units, locks;
      ret, units, locks := ResourceManage(generation, {channel}, bandwidth + bandwidthOverhead, true, replies);
      if ret < 0 && ret != EAGAIN {
        isAllocated := false;
      }
    }

    /** fw_iso_resources_free */
    method Free(replies: nat -> Reply) returns (ch: int)
      modifies this
      ensures View() == old(View()).(isAllocated := false)
      ensures old(isAllocated) ==> ch == Managed(old(View()), {channel}, false, replies).channel
    {
      hide ManageCall;
      ch := 0;
      if isAllocated {
        var units, locks;
        ch, units, locks := ResourceManage(generation, {channel}, bandwidth + bandwidthOverhead, false, replies);
        isAllocated := false;
      }
    }
  }
}
