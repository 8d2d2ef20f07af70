/** The client side of isochronous resource management: compare-and-swap loops against the
    CHANNELS_AVAILABLE and BANDWIDTH_AVAILABLE registers of the isochronous resource manager.

    A 32-bit channel register is the set of its one bits, bit 31 - k of the quadlet standing for
    channel k.  Every loop is given once as a transition from one lock request to the next,
    which is what concurrent clients interleave, and once as the loop itself.
 */
module IsoManage {
  import opened Basics

  const BANDWIDTH_AVAILABLE_INITIAL: int := 4915

  /** What a lock transaction reports: a stale generation, an error without effect, or the
      value that the register had. */
  datatype Reply = Generation | Failed | Flags(bits: set<nat>) | Units(n: int)

  datatype Outcome<T> = Done(ret: int) | More(next: T)

  function Toggle(s: set<nat>, c: nat): set<nat> { if c in s then s - {c} else s + {c} }

  /** The numbers below `n`. */
  function Range(n: nat): (s: set<nat>)
    ensures forall i: nat :: i in s <==> i < n
  {
    if n == 0 then {} else Range(n - 1) + {n - 1}
  }

  // ---- one channel register ------------------------------------------------

  datatype Chan = Chan(mask: set<nat>, allocate: bool, seen: set<nat>, channel: nat, retry: nat, ret: int)

  function ChanStart(mask: set<nat>, allocate: bool): Chan {
    Chan(mask, allocate, if allocate then Range(32) else {}, 0, 5, EIO)
  }

  /** A channel that is wanted and believed to be in the right state. */
  predicate Candidate(l: Chan) { l.channel in l.mask && (l.channel in l.seen) == l.allocate }

  /** The next lock request, or the end of the loop. */
  function Seek(l: Chan): (o: Outcome<Chan>)
    ensures o.More? ==> o.next == l.(channel := o.next.channel, ret := EBUSY) && Candidate(o.next)
    ensures o.More? ==> l.channel <= o.next.channel < 32
    ensures o.Done? ==> o.ret == l.ret || o.ret == EBUSY
    decreases 32 - l.channel
  {
    if l.channel >= 32 then Done(l.ret)
    else if l.channel !in l.mask then Seek(l.(channel := l.channel + 1))
    else if (l.channel in l.seen) != l.allocate then Seek(l.(channel := l.channel + 1, ret := EBUSY))
    else More(l.(ret := EBUSY))
  }

  function Retry(l: Chan): Chan {
    if l.retry > 0 then l.(retry := l.retry - 1) else l.(ret := EIO, channel := l.channel + 1)
  }

  /** The loop after the reply to a lock request. */
  function ChanAfter(l: Chan, reply: Reply): Outcome<Chan> {
    match reply
    case Generation => Done(if l.allocate then EAGAIN else l.channel)
    case Flags(v) =>
      if v == l.seen then Done(l.channel)
      else if (l.channel in v) == (l.channel in Toggle(l.seen, l.channel)) then
        Seek(l.(seen := v, channel := l.channel + 1))
      else Seek(Retry(l.(seen := v)))
    case _ => Seek(Retry(l))
  }

  /** Lock requests that the loop can still make. */
  function ChanFuel(l: Chan): nat { (if l.channel < 32 then 32 - l.channel else 0) + l.retry }

  lemma ChanAfterShrinks(l: Chan, reply: Reply)
    requires l.channel < 32
    ensures var o := ChanAfter(l, reply);
      && (o.More? ==> ChanFuel(o.next) < ChanFuel(l) && o.next.mask == l.mask && o.next.allocate == l.allocate)
      && (o.More? ==> Candidate(o.next) && o.next.channel < 32 && o.next.retry <= l.retry && o.next.ret == EBUSY)
      && (o.Done? && l.ret == EBUSY ==>
          o.ret == l.channel || (o.ret == EAGAIN && reply.Generation?) || o.ret == EIO || o.ret == EBUSY)
  {
  }

  /** The answers a loop got, in order. */
  datatype Trace = Trace(ret: int, locks: nat)

  function ChanRun(o: Outcome<Chan>, replies: nat -> Reply, at: nat): Trace
    requires o.More? ==> o.next.channel < 32
    decreases if o.More? then 1 + ChanFuel(o.next) else 0
  {
    match o
    case Done(ret) => Trace(ret, at)
    case More(l) => ChanAfterShrinks(l, replies(at)); ChanRun(ChanAfter(l, replies(at)), replies, at + 1)
  }

  lemma {:induction false} ChanRunBound(o: Outcome<Chan>, replies: nat -> Reply, at: nat)
    requires o.More? ==> o.next.channel < 32
    ensures at <= ChanRun(o, replies, at).locks <= at + if o.More? then ChanFuel(o.next) else 0
    decreases if o.More? then 1 + ChanFuel(o.next) else 0
  {
    if o.More? {
      ChanAfterShrinks(o.next, replies(at));
      ChanRunBound(ChanAfter(o.next, replies(at)), replies, at + 1);
    }
  }

  /** One round of the loop: a channel is passed over, or asked for. */
  lemma ChanRound(l: Chan, replies: nat -> Reply, at: nat)
    requires l.channel < 32
    ensures l.channel !in l.mask ==> Seek(l) == Seek(l.(channel := l.channel + 1))
    ensures l.channel in l.mask && !Candidate(l) ==> Seek(l) == Seek(l.(channel := l.channel + 1, ret := EBUSY))
    ensures Candidate(l) ==>
      ChanRun(Seek(l), replies, at) == ChanRun(ChanAfter(l.(ret := EBUSY), replies(at)), replies, at + 1)
  {
    if Candidate(l) {
      ChanAfterShrinks(l.(ret := EBUSY), replies(at));
    }
  }

  lemma ChanEnds(l: Chan, ret: int, replies: nat -> Reply, at: nat)
    ensures ChanRun(Done(ret), replies, at) == Trace(ret, at)
    ensures l.channel >= 32 ==> ChanRun(Seek(l), replies, at) == Trace(l.ret, at)
  {
  }

  /** manage_channel: whatever the register answers, at most 37 locks. */
  method ManageChannel(mask: set<nat>, allocate: bool, replies: nat -> Reply) returns (ret: int, locks: nat)
    ensures Trace(ret, locks) == ChanRun(Seek(ChanStart(mask, allocate)), replies, 0)
    ensures locks <= 37
  {
    hide Seek, ChanRun, Range;
    var seen: set<nat> := if allocate then Range(32) else {};
    var channel, retry := 0, 5;
    ret, locks := EIO, 0;
    ghost var whole := ChanRun(Seek(ChanStart(mask, allocate)), replies, 0);
    ChanRunBound(Seek(ChanStart(mask, allocate)), replies, 0);
    while channel < 32
      invariant channel <= 32 && 0 <= retry
      invariant whole == ChanRun(Seek(Chan(mask, allocate, seen, channel, retry, ret)), replies, locks)
      decreases 32 - channel + retry
    {
      ghost var l := Chan(mask, allocate, seen, channel, retry, ret);
      ChanRound(l, replies, locks);
      ChanEnds(l, if allocate then EAGAIN else channel, replies, locks + 1);
      ChanEnds(l, channel, replies, locks + 1);
      if channel !in mask {
        channel := channel + 1;
        continue;
      }
      ret := EBUSY;
      if (channel in seen) != allocate {
        channel := channel + 1;
        continue;
      }
      var reply := replies(locks);
      locks := locks + 1;
      var again := true;
      match reply {
        case Generation =>
          ret := if allocate then EAGAIN else channel;
          return;
        case Flags(v) =>
          if v == seen {
            ret := channel;
            return;
          }
          again := (channel in v) != (channel in Toggle(seen, channel));
          seen := v;
        case Failed =>
        case Units(_) =>
      }
      if !again {
        channel := channel + 1;
      } else if retry > 0 {
        retry := retry - 1;
      } else {
        ret := EIO;
        channel := channel + 1;
      }
    }
    ChanEnds(Chan(mask, allocate, seen, channel, retry, ret), ret, replies, locks);
  }

  // ---- the bandwidth register ----------------------------------------------

  datatype Band = Band(amount: int, allocate: bool, seen: int, tries: nat)

  function BandStart(amount: int, allocate: bool): Band {
    Band(amount, allocate, if allocate then BANDWIDTH_AVAILABLE_INITIAL else 0, 0)
  }

  function Wanted(b: Band): int { if b.allocate then b.seen - b.amount else b.seen + b.amount }

  function BandSeek(b: Band): Outcome<Band> {
    if b.tries >= 5 then Done(EIO)
    else if Wanted(b) < 0 || Wanted(b) > BANDWIDTH_AVAILABLE_INITIAL then Done(EBUSY)
    else More(b)
  }

  function BandAfter(b: Band, reply: Reply): Outcome<Band> {
    match reply
    case Generation => Done(if b.allocate then EAGAIN else b.amount)
    case Units(v) => if v == b.seen then Done(b.amount) else BandSeek(b.(seen := v, tries := b.tries + 1))
    case _ => BandSeek(b.(tries := b.tries + 1))
  }

  function BandRun(o: Outcome<Band>, replies: nat -> Reply, at: nat): Trace
    decreases if o.More? && o.next.tries < 5 then 6 - o.next.tries else if o.More? then 1 else 0
  {
    match o
    case Done(ret) => Trace(ret, at)
    case More(b) => BandRun(BandAfter(b, replies(at)), replies, at + 1)
  }

  lemma {:induction false} BandRunBound(o: Outcome<Band>, replies: nat -> Reply, at: nat)
    requires o.More? ==> o.next.tries < 5
    ensures at <= BandRun(o, replies, at).locks <= at + if o.More? then 5 - o.next.tries else 0
    decreases if o.More? then 6 - o.next.tries else 0
  {
    if o.More? {
      BandRunBound(BandAfter(o.next, replies(at)), replies, at + 1);
    }
  }

  /** manage_bandwidth: at most 5 locks. */
  method ManageBandwidth(bandwidth: int, allocate: bool, replies: nat -> Reply) returns (ret: int, locks: nat)
    ensures Trace(ret, locks) == BandRun(BandSeek(BandStart(bandwidth, allocate)), replies, 0)
    ensures locks <= 5
  {
    var seen := if allocate then BANDWIDTH_AVAILABLE_INITIAL else 0;
    locks := 0;
    BandRunBound(BandSeek(BandStart(bandwidth, allocate)), replies, 0);
    for i := 0 to 5
      invariant locks == i
      invariant BandRun(BandSeek(BandStart(bandwidth, allocate)), replies, 0)
        == BandRun(BandSeek(Band(bandwidth, allocate, seen, i)), replies, locks)
    {
      var wanted := if allocate then seen - bandwidth else seen + bandwidth;
      if wanted < 0 || wanted > BANDWIDTH_AVAILABLE_INITIAL {
        return EBUSY, locks;
      }
      var reply := replies(locks);
      locks := locks + 1;
      match reply {
        case Generation =>
          return if allocate then EAGAIN else bandwidth, locks;
        case Units(v) =>
          if v == seen {
            return bandwidth, locks;
          }
          seen := v;
        case Failed =>
        case Flags(_) =>
      }
    }
    return EIO, locks;
  }

  // ---- without contention --------------------------------------------------

  /** Channel `c` is wanted and, for register value `v`, can be had. */
  predicate Available(mask: set<nat>, allocate: bool, v: set<nat>, c: nat) {
    c < 32 && c in mask && (c in v) == allocate
  }

  lemma {:induction false} SeekLeast(l: Chan)
    ensures Seek(l).More? ==> Available(l.mask, l.allocate, l.seen, Seek(l).next.channel)
    ensures forall c: nat | l.channel <= c && Available(l.mask, l.allocate, l.seen, c) ::
      Seek(l).More? && Seek(l).next.channel <= c
    ensures Seek(l).Done? ==> Seek(l).ret == (if exists c: nat :: l.channel <= c < 32 && c in l.mask then EBUSY else l.ret)
    decreases 32 - l.channel
  {
    if l.channel < 32 {
      SeekLeast(l.(channel := l.channel + 1));
      SeekLeast(l.(channel := l.channel + 1, ret := EBUSY));
    }
  }

  /** If nobody else changes the register, at most two locks get the first channel that is
      wanted and available, and -EBUSY means that there is none. */
  lemma UncontendedChannel(mask: set<nat>, allocate: bool, v: set<nat>)
    ensures var t := ChanRun(Seek(ChanStart(mask, allocate)), k => Flags(v), 0);
      && t.locks <= 2
      && (forall c: nat | Available(mask, allocate, v, c) ::
          0 <= t.ret <= c && Available(mask, allocate, v, t.ret))
      && ((forall c: nat | c < 32 :: !Available(mask, allocate, v, c)) ==>
          t.ret == if exists c: nat :: c < 32 && c in mask then EBUSY else EIO)
  {
    var l := ChanStart(mask, allocate);
    var replies: nat -> Reply := k => Flags(v);
    SeekLeast(l);
    forall c: nat | Available(mask, allocate, v, c) ensures Seek(l).More? && Seek(l).next.channel <= c {
      assert Available(mask, allocate, l.seen, c);
    }
    if Seek(l).More? {
      var n := Seek(l).next;
      ChanAfterShrinks(n, Flags(v));
      SeekLeast(n.(seen := v, channel := n.channel + 1));
      SeekLeast(Retry(n.(seen := v)));
      var o := ChanAfter(n, Flags(v));
      assert ChanRun(Seek(l), replies, 0) == ChanRun(o, replies, 1);
      if o.More? {
        assert o.next.seen == v;
        assert ChanRun(o, replies, 1) == ChanRun(ChanAfter(o.next, Flags(v)), replies, 2);
      }
    }
  }

  /** The same for bandwidth: it is granted, or taken back, exactly if the register has room. */
  lemma UncontendedBandwidth(amount: nat, allocate: bool, n: nat)
    requires n <= BANDWIDTH_AVAILABLE_INITIAL
    ensures var t := BandRun(BandSeek(BandStart(amount, allocate)), k => Units(n), 0);
      && t.locks <= 2
      && t.ret == if (if allocate then amount <= n else n + amount <= BANDWIDTH_AVAILABLE_INITIAL) then amount else EBUSY
  {
    var replies: nat -> Reply := k => Units(n);
    var o := BandSeek(BandStart(amount, allocate));
    if o.More? {
      var p := BandAfter(o.next, Units(n));
      assert BandRun(o, replies, 0) == BandRun(p, replies, 1);
      if p.More? {
        assert BandRun(p, replies, 1) == BandRun(BandAfter(p.next, Units(n)), replies, 2);
      }
    }
  }

  // ---- a channel and bandwidth together ------------------------------------

  datatype Stage =
    | OnChannel(l: Chan, lo: bool)
    | OnBand(b: Band, c: int)
    | OnUndo(undo: Chan, taken: nat, err: int)
    | Finished(channel: int, bandwidth: int)

  /** A call of fw_iso_resource_manage; its stage says which lock request comes next. */
  datatype Manage = Manage(gen: nat, mask: set<nat>, bandwidth: nat, allocate: bool, stage: Stage)

  /** The part of a 64-channel mask that one register covers. */
  function Half(mask: set<nat>, lo: bool): (h: set<nat>)
    ensures forall i: nat :: i in h <==> i < 32 && (if lo then i + 32 else i) in mask
  {
    set i | i in Range(32) && (if lo then i + 32 else i) in mask
  }

  function ChannelDone(m: Manage, lo: bool, o: Outcome<Chan>): Manage
    decreases !lo
  {
    match o
    case More(l) => m.(stage := OnChannel(l, lo))
    case Done(ret) =>
      var c := if lo && ret >= 0 then ret + 32 else ret;
      if !lo && Half(m.mask, true) != {} && c < 0 then
        ChannelDone(m, true, Seek(ChanStart(Half(m.mask, true), m.allocate)))
      else AfterChannel(m, c)
  }

  function AfterChannel(m: Manage, c: int): Manage {
    if (m.allocate && m.mask != {} && c < 0) || m.bandwidth == 0 then m.(stage := Finished(c, 0))
    else BandDone(m, c, BandSeek(BandStart(m.bandwidth, m.allocate)))
  }

  function BandDone(m: Manage, c: int, o: Outcome<Band>): Manage {
    match o
    case More(b) => m.(stage := OnBand(b, c))
    case Done(ret) =>
      if ret >= 0 then m.(stage := Finished(c, m.bandwidth))
      else if !m.allocate then m.(stage := Finished(c, 0))
      else if c >= 0 then UndoDone(m, c, ret, Seek(ChanStart({c % 32}, false)))
      else m.(stage := Finished(ret, 0))
  }

  /** deallocate_channel; its result is ignored. */
  function UndoDone(m: Manage, c: nat, err: int, o: Outcome<Chan>): Manage {
    match o
    case More(l) => m.(stage := OnUndo(l, c, err))
    case Done(_) => m.(stage := Finished(err, 0))
  }

  function Start(gen: nat, mask: set<nat>, bandwidth: nat, allocate: bool): Manage {
    var m := Manage(gen, mask, bandwidth, allocate, Finished(EINVAL, 0));
    if Half(mask, false) != {} then ChannelDone(m, false, Seek(ChanStart(Half(mask, false), allocate)))
    else if Half(mask, true) != {} then ChannelDone(m, true, Seek(ChanStart(Half(mask, true), allocate)))
    else AfterChannel(m, EINVAL)
  }

  function Respond(m: Manage, reply: Reply): Manage {
    match m.stage
    case OnChannel(l, lo) => ChannelDone(m, lo, ChanAfter(l, reply))
    case OnBand(b, c) => BandDone(m, c, BandAfter(b, reply))
    case OnUndo(l, c, err) => UndoDone(m, c, err, ChanAfter(l, reply))
    case Finished(_, _) => m
  }

  // ---- a whole call --------------------------------------------------------

  predicate Ready(m: Manage) {
    match m.stage
    case OnChannel(l, _) => l.channel < 32 && l.retry <= 5
    case OnBand(b, _) => b.tries < 5
    case OnUndo(l, _, _) => l.channel < 32 && l.retry <= 5
    case Finished(_, _) => true
  }

  /** Lock requests that a call can still make. */
  function Fuel(m: Manage): nat
    requires Ready(m)
  {
    match m.stage
    case OnChannel(l, lo) => ChanFuel(l) + (if lo then 42 else 79)
    case OnBand(b, _) => 42 - b.tries
    case OnUndo(l, _, _) => ChanFuel(l)
    case Finished(_, _) => 0
  }

  lemma ChannelDoneReady(m: Manage, lo: bool, o: Outcome<Chan>, bound: nat)
    requires o.More? ==> o.next.channel < 32 && o.next.retry <= 5 && ChanFuel(o.next) <= bound
    ensures Ready(ChannelDone(m, lo, o)) && Fuel(ChannelDone(m, lo, o)) <= bound + (if lo then 42 else 79)
    decreases !lo
  {
    if !lo && o.Done? {
      ChannelDoneReady(m, true, Seek(ChanStart(Half(m.mask, true), m.allocate)), 37);
    }
  }

  lemma RespondReady(m: Manage, reply: Reply)
    requires Ready(m)
    ensures Ready(Respond(m, reply))
    ensures !m.stage.Finished? ==> Fuel(Respond(m, reply)) < Fuel(m)
  {
    match m.stage
    case OnChannel(l, lo) =>
      ChanAfterShrinks(l, reply);
      ChannelDoneReady(m, lo, ChanAfter(l, reply), ChanFuel(l) - 1);
    case OnBand(b, c) =>
    case OnUndo(l, c, err) =>
      ChanAfterShrinks(l, reply);
    case Finished(_, _) =>
  }

  lemma StartReady(gen: nat, mask: set<nat>, bandwidth: nat, allocate: bool)
    ensures var m := Start(gen, mask, bandwidth, allocate); Ready(m) && Fuel(m) <= 116
  {
    hide Half, Seek, ChannelDone;
    var m := Manage(gen, mask, bandwidth, allocate, Finished(EINVAL, 0));
    ChannelDoneReady(m, false, Seek(ChanStart(Half(mask, false), allocate)), 37);
    ChannelDoneReady(m, true, Seek(ChanStart(Half(mask, true), allocate)), 37);
  }

  datatype Result = Result(channel: int, bandwidth: int, locks: nat)

  function ManageRun(m: Manage, replies: nat -> Reply, at: nat): (r: Result)
    requires Ready(m)
    ensures at <= r.locks <= at + Fuel(m)
    decreases Fuel(m)
  {
    if m.stage.Finished? then Result(m.stage.channel, m.stage.bandwidth, at)
    else RespondReady(m, replies(at)); ManageRun(Respond(m, replies(at)), replies, at + 1)
  }

  function Later(replies: nat -> Reply, at: nat): nat -> Reply { (k: nat) => replies(at + k) }

  /** The machine goes through the channel loop as manage_channel does. */
  lemma {:induction false} RunChannel(m: Manage, lo: bool, o: Outcome<Chan>, replies: nat -> Reply, at: nat, k: nat)
    requires o.More? ==> o.next.channel < 32 && o.next.retry <= 5
    ensures Ready(ChannelDone(m, lo, o))
    ensures var t := ChanRun(o, Later(replies, at), k);
      && Ready(ChannelDone(m, lo, Done(t.ret)))
      && ManageRun(ChannelDone(m, lo, o), replies, at + k) == ManageRun(ChannelDone(m, lo, Done(t.ret)), replies, at + t.locks)
    decreases if o.More? then 1 + ChanFuel(o.next) else 0
  {
    hide ManageRun, Ready, Half, ChannelDone, ChanAfter;
    ChannelDoneReady(m, lo, o, if o.More? then ChanFuel(o.next) else 0);
    if o.More? {
      var reply := replies(at + k);
      ChanAfterShrinks(o.next, reply);
      RunChannel(m, lo, ChanAfter(o.next, reply), replies, at, k + 1);
      RespondOnChannel(m, lo, o.next, reply);
      RunStep(ChannelDone(m, lo, o), replies, at + k);
      assert Later(replies, at)(k) == reply;
    }
  }

  lemma RunStep(m: Manage, replies: nat -> Reply, at: nat)
    requires Ready(m) && !m.stage.Finished?
    ensures Ready(Respond(m, replies(at))) && ManageRun(m, replies, at) == ManageRun(Respond(m, replies(at)), replies, at + 1)
  {
    RespondReady(m, replies(at));
  }

  lemma RespondOnChannel(m: Manage, lo: bool, l: Chan, reply: Reply)
    ensures ChannelDone(m, lo, More(l)).stage == OnChannel(l, lo)
    ensures Respond(ChannelDone(m, lo, More(l)), reply) == ChannelDone(m, lo, ChanAfter(l, reply))
  {
    StageIgnored(m, OnChannel(l, lo), lo, ChanAfter(l, reply));
  }

  /** Only the parameters of a call matter, not the stage it was in. */
  lemma StageIgnored(m: Manage, stage: Stage, lo: bool, o: Outcome<Chan>)
    ensures ChannelDone(m.(stage := stage), lo, o) == ChannelDone(m, lo, o)
    decreases !lo
  {
    if !lo && o.Done? {
      StageIgnored(m, stage, true, Seek(ChanStart(Half(m.mask, true), m.allocate)));
    }
  }

  lemma {:induction false} RunBand(m: Manage, c: int, o: Outcome<Band>, replies: nat -> Reply, at: nat, k: nat)
    requires o.More? ==> o.next.tries < 5
    ensures Ready(BandDone(m, c, o))
    ensures var t := BandRun(o, Later(replies, at), k);
      && Ready(BandDone(m, c, Done(t.ret)))
      && ManageRun(BandDone(m, c, o), replies, at + k) == ManageRun(BandDone(m, c, Done(t.ret)), replies, at + t.locks)
    decreases if o.More? then 6 - o.next.tries else 0
  {
    if o.More? {
      var reply := replies(at + k);
      assert Later(replies, at)(k) == reply;
      RunBand(m, c, BandAfter(o.next, reply), replies, at, k + 1);
    }
  }

  lemma {:induction false} RunUndo(m: Manage, c: nat, err: int, o: Outcome<Chan>, replies: nat -> Reply, at: nat, k: nat)
    requires o.More? ==> o.next.channel < 32 && o.next.retry <= 5
    ensures Ready(UndoDone(m, c, err, o))
    ensures ManageRun(UndoDone(m, c, err, o), replies, at + k) == Result(err, 0, at + ChanRun(o, Later(replies, at), k).locks)
    decreases if o.More? then 1 + ChanFuel(o.next) else 0
  {
    if o.More? {
      var reply := replies(at + k);
      assert Later(replies, at)(k) == reply;
      ChanAfterShrinks(o.next, reply);
      RunUndo(m, c, err, ChanAfter(o.next, reply), replies, at, k + 1);
    }
  }

  /** The call after the register of channels 63...32, where `at` locks have been made before. */
  lemma RunLo(m: Manage, replies: nat -> Reply, at: nat)
    ensures var o := Seek(ChanStart(Half(m.mask, true), m.allocate)); var t := ChanRun(o, Later(replies, at), 0);
      var c := if t.ret >= 0 then t.ret + 32 else t.ret;
      && Ready(ChannelDone(m, true, o)) && Ready(AfterChannel(m, c))
      && ManageRun(ChannelDone(m, true, o), replies, at) == ManageRun(AfterChannel(m, c), replies, at + t.locks)
  {
    hide ManageRun, ChanRun, Seek, Ready, Half, ChanStart, AfterChannel;
    var o := Seek(ChanStart(Half(m.mask, true), m.allocate));
    SeekStart(Half(m.mask, true), m.allocate);
    RunChannel(m, true, o, replies, at, 0);
  }

  lemma SeekStart(mask: set<nat>, allocate: bool)
    ensures var o := Seek(ChanStart(mask, allocate)); o.More? ==> o.next.channel < 32 && o.next.retry <= 5
  {
  }

  lemma RunHi(m: Manage, replies: nat -> Reply)
    ensures var o := Seek(ChanStart(Half(m.mask, false), m.allocate)); var t := ChanRun(o, Later(replies, 0), 0);
      && Ready(ChannelDone(m, false, o)) && Ready(ChannelDone(m, false, Done(t.ret)))
      && ManageRun(ChannelDone(m, false, o), replies, 0) == ManageRun(ChannelDone(m, false, Done(t.ret)), replies, t.locks)
  {
    hide ManageRun, ChanRun, Seek, Ready, Half, ChanStart, ChannelDone;
    SeekStart(Half(m.mask, false), m.allocate);
    RunChannel(m, false, Seek(ChanStart(Half(m.mask, false), m.allocate)), replies, 0, 0);
  }

  lemma RunFinished(m: Manage, replies: nat -> Reply, at: nat)
    requires m.stage.Finished?
    ensures Ready(m) && ManageRun(m, replies, at) == Result(m.stage.channel, m.stage.bandwidth, at)
  {
  }

  /** The call after the bandwidth register. */
  lemma RunBandwidth(m: Manage, c: int, replies: nat -> Reply, at: nat)
    ensures var o := BandSeek(BandStart(m.bandwidth, m.allocate)); var t := BandRun(o, Later(replies, at), 0);
      && Ready(BandDone(m, c, o)) && Ready(BandDone(m, c, Done(t.ret)))
      && ManageRun(BandDone(m, c, o), replies, at) == ManageRun(BandDone(m, c, Done(t.ret)), replies, at + t.locks)
  {
    hide ManageRun, BandRun, Ready, BandDone;
    RunBand(m, c, BandSeek(BandStart(m.bandwidth, m.allocate)), replies, at, 0);
  }

  lemma RunRollback(m: Manage, c: nat, err: int, replies: nat -> Reply, at: nat)
    ensures var o := Seek(ChanStart({c % 32}, false)); var t := ChanRun(o, Later(replies, at), 0);
      && Ready(UndoDone(m, c, err, o)) && ManageRun(UndoDone(m, c, err, o), replies, at) == Result(err, 0, at + t.locks)
  {
    hide ManageRun, ChanRun, Seek, Ready, ChanStart, UndoDone;
    SeekStart({c % 32}, false);
    RunUndo(m, c, err, Seek(ChanStart({c % 32}, false)), replies, at, 0);
  }

  /** The end of fw_iso_resource_manage: bandwidth, and the channel back if there is none. */
  method ManageRest(ghost m: Manage, c: int, bandwidth: nat, allocate: bool, replies: nat -> Reply, at: nat)
    returns (channel: int, granted: int, locks: nat)
    requires bandwidth == m.bandwidth > 0 && allocate == m.allocate
    requires !(m.allocate && m.mask != {} && c < 0)
    ensures Ready(AfterChannel(m, c))
    ensures Result(channel, granted, at + locks) == ManageRun(AfterChannel(m, c), replies, at)
  {
    hide ManageRun, ChanRun, BandRun, Ready, Seek, BandSeek, BandStart, ChanStart;
    RunBandwidth(m, c, replies, at);
    channel, granted := c, bandwidth;
    var ret;
    ret, locks := ManageBandwidth(bandwidth, allocate, Later(replies, at));
    ghost var done := BandDone(m, c, Done(ret));
    if ret < 0 {
      granted := 0;
    }
    if allocate && ret < 0 {
      if c >= 0 {
        RunRollback(m, c, ret, replies, at + locks);
        var _, k := ManageChannel({c % 32}, false, Later(replies, at + locks));
        locks := locks + k;
        return ret, 0, locks;
      }
      channel := ret;
    }
    RunFinished(done, replies, at + locks);
  }

  /** What a whole call returns. */
  function ManageCall(gen: nat, mask: set<nat>, bandwidth: nat, allocate: bool, replies: nat -> Reply): (r: Result)
    ensures r.locks <= 116
  {
    hide Start, Ready, Fuel;
    StartReady(gen, mask, bandwidth, allocate);
    ManageRun(Start(gen, mask, bandwidth, allocate), replies, 0)
  }

  /** fw_iso_resource_manage: the loops in sequence are the machine, and end after at most 116 locks. */
  method ResourceManage(gen: nat, mask: set<nat>, bandwidth: nat, allocate: bool, replies: nat -> Reply)
    returns (channel: int, granted: int, locks: nat)
    ensures Result(channel, granted, locks) == ManageCall(gen, mask, bandwidth, allocate, replies)
    ensures locks <= 116
  {
    hide ManageRun, ChanRun, BandRun, Ready, Seek, Half, BandSeek, BandStart, ChanStart, Fuel;
    StartReady(gen, mask, bandwidth, allocate);
    ghost var m := Manage(gen, mask, bandwidth, allocate, Finished(EINVAL, 0));
    ghost var whole := ManageRun(Start(gen, mask, bandwidth, allocate), replies, 0);
    var hi, lo := Half(mask, false), Half(mask, true);
    var c, n := EINVAL, 0;
    locks := 0;
    if hi != {} {
      RunHi(m, replies);
      c, locks := ManageChannel(hi, allocate, Later(replies, 0));
    }
    if lo != {} && c < 0 {
      RunLo(m, replies, locks);
      c, n := ManageChannel(lo, allocate, Later(replies, locks));
      locks := locks + n;
      if c >= 0 {
        c := c + 32;
      }
    }
    assert Ready(AfterChannel(m, c)) && whole == ManageRun(AfterChannel(m, c), replies, locks);
    channel, granted := c, bandwidth;
    if allocate && mask != {} && c < 0 {
      granted := 0;
    }
    if granted == 0 {
      RunFinished(AfterChannel(m, c), replies, locks);
      return;
    }
    channel, granted, n := ManageRest(m, c, bandwidth, allocate, replies, locks);
    locks := locks + n;
  }
}
