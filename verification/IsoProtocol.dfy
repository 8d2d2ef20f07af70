/** Any number of clients that manage isochronous resources on one bus, as interleaved steps.

    A lock request is executed by the resource manager in one step and its answer is delivered
    in another; a bus reset may come at any time, starts a new generation and restores the
    registers.  `owned` and `units` of a client record what its executed locks have taken and
    not given back in this generation; `leaked` and `lost` are the part of it that a release
    loop gave up on.
 */
module IsoProtocol {
  import opened Basics
  import opened IsoManage

  datatype Ask = Idle | Answered(reply: Reply)

  /** struct fw_iso_resources */
  datatype Resources = Resources(
    mask: set<nat>, isAllocated: bool, channel: nat, bandwidth: nat, overhead: nat, generation: nat)

  datatype Kind = Allocate | Update | Free
  datatype Call = Quiet | Busy(kind: Kind, m: Manage, ask: Ask)

  datatype Client = Client(r: Resources, call: Call, owned: set<nat>, units: nat, leaked: set<nat>, lost: nat)

  datatype World = World(gen: nat, avail: set<nat>, bw: int, clients: seq<Client>)

  function Global(c: nat, lo: bool): nat { if lo then c + 32 else c }

  // ---- what a call holds ---------------------------------------------------

  predicate TookChannel(l: Chan, ask: Ask) { ask == Answered(Flags(l.seen)) }
  predicate TookUnits(b: Band, ask: Ask) { ask == Answered(Units(b.seen)) }

  function Chans(m: Manage, ask: Ask): set<nat> {
    match m.stage
    case OnChannel(l, lo) => if m.allocate == TookChannel(l, ask) then {Global(l.channel, lo)} else {}
    case OnBand(_, c) => if m.allocate && c >= 0 then {c as nat} else {}
    case OnUndo(l, c, _) => if TookChannel(l, ask) then {} else {c}
    case Finished(c, _) => if m.allocate && c >= 0 then {c as nat} else {}
  }

  function Bandwidth(m: Manage, ask: Ask): int {
    match m.stage
    case OnChannel(_, _) => if m.allocate then 0 else m.bandwidth
    case OnBand(b, _) => if m.allocate == TookUnits(b, ask) then m.bandwidth else 0
    case OnUndo(_, _, _) => 0
    case Finished(_, b) => if m.allocate then b else 0
  }

  /** What a client is entitled to in the generation it last looked at. */
  function Due(c: Client): (set<nat>, int) {
    match c.call
    case Busy(_, m, ask) => (Chans(m, ask), Bandwidth(m, ask))
    case Quiet => if c.r.isAllocated then ({c.r.channel}, c.r.bandwidth + c.r.overhead) else ({}, 0)
  }

  // ---- consistent clients --------------------------------------------------

  predicate LoopOk(l: Chan, allocate: bool) {
    l.allocate == allocate && Candidate(l) && l.channel < 32 && l.retry <= 5 && l.ret == EBUSY
  }

  ghost predicate StageOk(m: Manage) {
    match m.stage
    case OnChannel(l, lo) => LoopOk(l, m.allocate) && l.mask == Half(m.mask, lo)
    case OnBand(b, c) =>
      && b.allocate == m.allocate && b.amount == m.bandwidth > 0 && b.tries < 5
      && 0 <= Wanted(b) <= BANDWIDTH_AVAILABLE_INITIAL && (m.allocate ==> 0 <= c && c in m.mask)
    case OnUndo(l, c, err) =>
      m.allocate && LoopOk(l, false) && c in m.mask && l.mask == {c % 32} && err < 0
    case Finished(c, b) =>
      m.allocate ==> if c >= 0 then c in m.mask && b == m.bandwidth else b == 0
  }

  ghost predicate ManageOk(m: Manage) {
    && m.mask != {} && (forall c | c in m.mask :: c < 64) && StageOk(m)
  }

  /** An answer of the right register; a release finds what it is about to release taken. */
  ghost predicate AskOk(m: Manage, ask: Ask) {
    ask.Answered? ==>
      match m.stage
      case OnChannel(l, lo) => ask.reply.Flags? && (!m.allocate ==> l.channel !in ask.reply.bits)
      case OnBand(b, _) =>
        ask.reply.Units? && 0 <= ask.reply.n && (!m.allocate ==> ask.reply.n + b.amount <= BANDWIDTH_AVAILABLE_INITIAL)
      case OnUndo(l, _, _) => ask.reply.Flags? && l.channel !in ask.reply.bits
      case Finished(_, _) => false
  }

  /** -EAGAIN is only reported, or about to be reported, once the generation is over. */
  predicate Again(m: Manage) {
    match m.stage
    case OnUndo(_, _, err) => err == EAGAIN
    case Finished(c, _) => m.allocate && c == EAGAIN
    case _ => false
  }

  ghost predicate CallOk(gen: nat, r: Resources, call: Call) {
    call.Busy? ==>
      && call.m.gen == r.generation && ManageOk(call.m) && AskOk(call.m, call.ask)
      && (Again(call.m) ==> call.m.gen < gen)
      && call.m.allocate == !call.kind.Free? && call.m.bandwidth == r.bandwidth + r.overhead
      && r.isAllocated == !call.kind.Allocate?
      && call.m.mask == (if call.kind.Allocate? then r.mask else {r.channel})
  }

  ghost predicate ClientOk(gen: nat, c: Client) {
    && c.r.mask != {} && (forall x | x in c.r.mask :: x < 64) && (c.r.isAllocated ==> c.r.channel < 64)
    && c.r.generation <= gen && CallOk(gen, c.r, c.call)
    && (if c.r.generation < gen then c.owned == c.leaked == {} && c.units == c.lost == 0
        else c.owned == Due(c).0 + c.leaked && Due(c).0 !! c.leaked && c.units == Due(c).1 + c.lost)
  }

  // ---- the bus -------------------------------------------------------------

  function TotalUnits(cs: seq<Client>): nat {
    if cs == [] then 0 else cs[0].units + TotalUnits(cs[1..])
  }

  predicate Holds(w: World, i: nat, c: nat) { i < |w.clients| && c in w.clients[i].owned }

  ghost predicate Inv(w: World) {
    && (forall i | 0 <= i < |w.clients| :: ClientOk(w.gen, w.clients[i]))
    && (forall c | c in w.avail :: c < 64)
    && (forall i | 0 <= i < |w.clients| :: w.avail !! w.clients[i].owned)
    && (forall i, j | 0 <= i < j < |w.clients| :: w.clients[i].owned !! w.clients[j].owned)
    && (forall c: nat | c < 64 && c !in w.avail :: exists i :: Holds(w, i, c))
    && 0 <= w.bw && w.bw + TotalUnits(w.clients) == BANDWIDTH_AVAILABLE_INITIAL
  }

  // ---- steps ---------------------------------------------------------------

  datatype Event =
    | Reset
    | BeginAllocate(i: nat, bandwidth: nat, overhead: nat)
    | BeginUpdate(i: nat, overhead: nat)
    | BeginFree(i: nat)
    | Execute(i: nat)
    | Deliver(i: nat)
    | Fail(i: nat)
    | End(i: nat, overhead: nat)

  function Renewed(c: Client): Client { c.(owned := {}, units := 0, leaked := {}, lost := 0) }

  function RenewedAll(cs: seq<Client>): (r: seq<Client>)
    ensures |r| == |cs|
  {
    seq(|cs|, i requires 0 <= i < |cs| => Renewed(cs[i]))
  }

  predicate Waits(w: World, i: nat) {
    i < |w.clients| && w.clients[i].call.Busy? && !w.clients[i].call.m.stage.Finished?
  }

  predicate Enabled(w: World, e: Event) {
    match e
    case Reset => true
    case BeginAllocate(i, _, _) => i < |w.clients| && w.clients[i].call.Quiet?
    case BeginUpdate(i, _) => i < |w.clients| && w.clients[i].call.Quiet?
    case BeginFree(i) => i < |w.clients| && w.clients[i].call.Quiet?
    case Execute(i) => Waits(w, i) && w.clients[i].call.ask.Idle? && w.clients[i].call.m.gen == w.gen
    case Deliver(i) => Waits(w, i) && (w.clients[i].call.ask.Answered? || w.clients[i].call.m.gen != w.gen)
    case Fail(i) => Waits(w, i) && w.clients[i].call.ask.Idle?
    case End(i, _) => i < |w.clients| && w.clients[i].call.Busy? && w.clients[i].call.m.stage.Finished?
  }

  /** What the transaction layer hands to a waiting client. */
  function Received(w: World, call: Call): Reply
    requires call.Busy?
  {
    if call.m.gen != w.gen || call.ask.Idle? then Generation else call.ask.reply
  }

  predicate GivesUpChannel(m: Manage, reply: Reply) {
    match m.stage
    case OnChannel(l, _) => !m.allocate && ChanAfter(l, reply).Done? && ChanAfter(l, reply).ret < 0
    case OnUndo(l, _, _) => ChanAfter(l, reply).Done? && ChanAfter(l, reply).ret < 0
    case _ => false
  }

  predicate GivesUpUnits(m: Manage, reply: Reply) {
    m.stage.OnBand? && !m.allocate && BandAfter(m.stage.b, reply).Done? && BandAfter(m.stage.b, reply).ret < 0
  }

  /** The client goes on with a reply; what a release loop gives up on is leaked. */
  function Answer(gen: nat, c: Client, reply: Reply): Client
    requires c.call.Busy?
  {
    var m := c.call.m;
    var d := c.(call := Busy(c.call.kind, Respond(m, reply), Idle));
    if m.gen != gen then d
    else d.(leaked := if GivesUpChannel(m, reply) then c.leaked + Chans(m, Idle) else c.leaked,
            lost := if GivesUpUnits(m, reply) then c.lost + m.bandwidth else c.lost)
  }

  function Ended(gen: nat, c: Client, overhead: nat): Client
    requires c.call.Busy? && c.call.m.stage.Finished?
  {
    var ch := c.call.m.stage.channel;
    match c.call.kind
    case Allocate =>
      if ch == EAGAIN then
        var r := c.r.(generation := gen, overhead := overhead);
        c.(r := r, call := Busy(Allocate, Start(gen, r.mask, r.bandwidth + overhead, true), Idle))
      else c.(r := AfterAllocate(c.r, ch), call := Quiet)
    case Update => c.(r := AfterUpdate(c.r, ch), call := Quiet)
    case Free => c.(r := c.r.(isAllocated := false), call := Quiet)
  }

  function AfterAllocate(r: Resources, ch: int): Resources {
    if ch >= 0 then r.(channel := ch, isAllocated := true) else r
  }

  /** After another bus reset the allocation is taken for granted until the next update. */
  function AfterUpdate(r: Resources, ch: int): Resources {
    if ch < 0 && ch != EAGAIN then r.(isAllocated := false) else r
  }

  /** The client is told, in this generation, that it has its channel and bandwidth. */
  predicate Entitled(gen: nat, c: Client) { c.call.Quiet? && c.r.isAllocated && c.r.generation == gen }

  /** A client that asks again for what it holds already has lost track of it. */
  function Forgotten(gen: nat, c: Client): Client {
    if Entitled(gen, c) then
      c.(leaked := c.leaked + {c.r.channel}, lost := c.lost + c.r.bandwidth + c.r.overhead)
    else c
  }

  function Began(gen: nat, c: Client, kind: Kind, r: Resources, mask: set<nat>): Client {
    c.(r := r, call := Busy(kind, Start(r.generation, mask, r.bandwidth + r.overhead, !kind.Free?), Idle))
  }

  function Executed(w: World, i: nat): World
    requires Waits(w, i)
  {
    var c := w.clients[i];
    var m := c.call.m;
    match m.stage
    case OnChannel(l, lo) => ChannelLock(w, i, l, lo)
    case OnUndo(l, taken, _) => ChannelLock(w, i, l, taken >= 32)
    case OnBand(b, _) =>
      var d := c.(call := c.call.(ask := Answered(Units(w.bw))));
      if w.bw != b.seen then w.(clients := w.clients[i := d])
      else
        var units := c.units + (if b.allocate then b.amount else -b.amount);
        w.(bw := Wanted(b), clients := w.clients[i := d.(units := if units >= 0 then units else 0)])
  }

  /** A compare-and-swap of one channel register. */
  function ChannelLock(w: World, i: nat, l: Chan, lo: bool): World
    requires i < |w.clients| && w.clients[i].call.Busy?
  {
    var c, g := w.clients[i], Global(l.channel, lo);
    var d := c.(call := c.call.(ask := Answered(Flags(Half(w.avail, lo)))));
    if Half(w.avail, lo) != l.seen then w.(clients := w.clients[i := d])
    else w.(avail := Toggle(w.avail, g),
            clients := w.clients[i := d.(owned := if l.allocate then c.owned + {g} else c.owned - {g})])
  }

  function Step(w: World, e: Event): World
    requires Enabled(w, e)
  {
    match e
    case Reset => World(w.gen + 1, Range(64), BANDWIDTH_AVAILABLE_INITIAL, RenewedAll(w.clients))
    case BeginAllocate(i, bandwidth, overhead) =>
      var c := w.clients[i];
      var r := c.r.(bandwidth := bandwidth, generation := w.gen, overhead := overhead);
      if c.r.isAllocated then w else w.(clients := w.clients[i := Began(w.gen, c, Allocate, r, r.mask)])
    case BeginUpdate(i, overhead) =>
      var c := w.clients[i];
      var r := c.r.(generation := w.gen, overhead := overhead);
      if !c.r.isAllocated then w
      else w.(clients := w.clients[i := Began(w.gen, Forgotten(w.gen, c), Update, r, {r.channel})])
    case BeginFree(i) =>
      var c := w.clients[i];
      if !c.r.isAllocated then w else w.(clients := w.clients[i := Began(w.gen, c, Free, c.r, {c.r.channel})])
    case Execute(i) => Executed(w, i)
    case Deliver(i) =>
      w.(clients := w.clients[i := Answer(w.gen, w.clients[i], Received(w, w.clients[i].call))])
    case Fail(i) => w.(clients := w.clients[i := Answer(w.gen, w.clients[i], Failed)])
    case End(i, overhead) => w.(clients := w.clients[i := Ended(w.gen, w.clients[i], overhead)])
  }

  // ---- one client changes --------------------------------------------------

  lemma {:induction false} UnitsUpdate(cs: seq<Client>, i: nat, c: Client)
    requires i < |cs|
    ensures TotalUnits(cs[i := c]) == TotalUnits(cs) - cs[i].units + c.units
    ensures cs[i].units <= TotalUnits(cs)
  {
    var ds := cs[i := c];
    if i == 0 {
      assert ds[1..] == cs[1..];
    } else {
      UnitsUpdate(cs[1..], i - 1, c);
      assert ds[1..] == cs[1..][i - 1 := c];
    }
  }

  /** A step of one client keeps the invariant if it only moves things between the client and
      the registers. */
  lemma ClientStep(w: World, w': World, i: nat)
    requires Inv(w) && i < |w.clients| == |w'.clients|
    requires w'.gen == w.gen && w'.clients == w.clients[i := w'.clients[i]] && ClientOk(w.gen, w'.clients[i])
    requires w'.avail + w'.clients[i].owned == w.avail + w.clients[i].owned && w'.avail !! w'.clients[i].owned
    requires w'.bw + w'.clients[i].units == w.bw + w.clients[i].units && 0 <= w'.bw
    requires forall x | x in w'.avail :: x < 64
    ensures Inv(w')
  {
    hide ClientOk;
    UnitsUpdate(w.clients, i, w'.clients[i]);
    forall k | 0 <= k < |w'.clients| ensures ClientOk(w'.gen, w'.clients[k]) && w'.avail !! w'.clients[k].owned {
      if k != i {
        OthersApart(w, i, k);
      }
    }
    forall k, j | 0 <= k < j < |w'.clients| ensures w'.clients[k].owned !! w'.clients[j].owned {
      if k == i {
        OthersApart(w, i, j);
      } else if j == i {
        OthersApart(w, i, k);
      }
    }
    forall c: nat | c < 64 && c !in w'.avail ensures exists k :: Holds(w', k, c) {
      StillHeld(w, w', i, c);
    }
  }

  lemma OthersApart(w: World, i: nat, k: nat)
    requires Inv(w) && i < |w.clients| && k < |w.clients| && i != k
    ensures ClientOk(w.gen, w.clients[k]) && (w.avail + w.clients[i].owned) !! w.clients[k].owned
  {
    hide ClientOk;
    if i < k {
      assert w.clients[i].owned !! w.clients[k].owned;
    } else {
      assert w.clients[k].owned !! w.clients[i].owned;
    }
  }

  lemma StillHeld(w: World, w': World, i: nat, c: nat)
    requires Inv(w) && i < |w.clients| == |w'.clients| && w'.clients == w.clients[i := w'.clients[i]]
    requires w'.avail + w'.clients[i].owned == w.avail + w.clients[i].owned
    requires c < 64 && c !in w'.avail
    ensures exists k :: Holds(w', k, c)
  {
    hide ClientOk;
    if c in w'.clients[i].owned {
      assert Holds(w', i, c);
    } else {
      assert c !in w.avail + w.clients[i].owned;
      var k :| Holds(w, k, c);
      assert Holds(w', k, c);
    }
  }

  // ---- bus resets ----------------------------------------------------------

  lemma {:induction false} UnitsRenewed(cs: seq<Client>)
    requires forall i | 0 <= i < |cs| :: cs[i].units == 0
    ensures TotalUnits(cs) == 0
  {
    if cs != [] {
      UnitsRenewed(cs[1..]);
    }
  }

  lemma RenewedOk(gen: nat, c: Client)
    requires ClientOk(gen, c)
    ensures ClientOk(gen + 1, Renewed(c))
  {
    hide ManageOk, AskOk, Due;
  }

  lemma ResetInv(w: World)
    requires Inv(w)
    ensures Inv(Step(w, Reset))
  {
    hide ClientOk;
    var w' := Step(w, Reset);
    UnitsRenewed(w'.clients);
    forall i | 0 <= i < |w'.clients| ensures ClientOk(w'.gen, w'.clients[i]) {
      RenewedOk(w.gen, w.clients[i]);
    }
  }

  // ---- beginning a call ----------------------------------------------------

  lemma {:induction false} SeekFinds(l: Chan, c: nat)
    requires l.channel <= c < 32 && c in l.mask && forall k | k in l.mask :: (k in l.seen) == l.allocate
    ensures Seek(l).More?
    decreases 32 - l.channel
  {
    if l.channel !in l.mask {
      SeekFinds(l.(channel := l.channel + 1), c);
    }
  }

  /** The first thing a call does is a lock of a channel register; nothing is taken yet. */
  lemma StartOk(gen: nat, mask: set<nat>, bandwidth: nat, allocate: bool)
    requires mask != {} && forall c | c in mask :: c < 64
    ensures var m := Start(gen, mask, bandwidth, allocate);
      && m == Manage(gen, mask, bandwidth, allocate, m.stage) && m.stage.OnChannel? && ManageOk(m)
      && Global(m.stage.l.channel, m.stage.lo) in mask
  {
    var c :| c in mask;
    var lo := Half(mask, false) == {};
    assert !lo || (c >= 32 && c - 32 in Half(mask, true)) by {
      assert c < 32 ==> c in Half(mask, false);
    }
    var k :| k in Half(mask, lo);
    SeekFinds(ChanStart(Half(mask, lo), allocate), k);
  }

  lemma BeganOk(gen: nat, c: Client, kind: Kind, r: Resources, mask: set<nat>)
    requires ClientOk(gen, c) && c.call.Quiet? && c.r.isAllocated == !kind.Allocate?
    requires r == c.r.(generation := r.generation, bandwidth := r.bandwidth, overhead := r.overhead)
    requires if kind.Free? then r == c.r else r.generation == gen
    requires kind.Update? ==> r.bandwidth == c.r.bandwidth
    requires mask == if kind.Allocate? then r.mask else {r.channel}
    ensures ClientOk(gen, Began(gen, if kind.Update? then Forgotten(gen, c) else c, kind, r, mask))
  {
    hide Start, StageOk;
    StartOk(r.generation, mask, r.bandwidth + r.overhead, !kind.Free?);
  }

  // ---- executing a lock ----------------------------------------------------

  /** What a lock of a channel register is about. */
  lemma LockTarget(m: Manage, l: Chan, lo: bool)
    requires ManageOk(m)
    requires m.stage == OnChannel(l, lo) || (m.stage.OnUndo? && m.stage.undo == l && lo == (m.stage.taken >= 32))
    ensures Global(l.channel, lo) < 64 && l.channel < 32
    ensures m.stage.OnChannel? ==> l.allocate == m.allocate && Global(l.channel, lo) in m.mask
    ensures m.stage.OnUndo? ==> !l.allocate && Global(l.channel, lo) == m.stage.taken
    ensures (l.channel in l.seen) == l.allocate
    ensures Chans(m, Idle) == if l.allocate then {} else {Global(l.channel, lo)}
    ensures Chans(m, Answered(Flags(l.seen))) == if l.allocate then {Global(l.channel, lo)} else {}
  {
  }

  lemma LockedClient(gen: nat, avail: set<nat>, c: Client, l: Chan, lo: bool)
    requires ClientOk(gen, c) && c.call.Busy? && c.call.ask.Idle? && c.r.generation == gen && avail !! c.owned
    requires c.call.m.stage == OnChannel(l, lo)
      || (c.call.m.stage.OnUndo? && c.call.m.stage.undo == l && lo == (c.call.m.stage.taken >= 32))
    ensures var h, g, d := Half(avail, lo), Global(l.channel, lo), c.(call := c.call.(ask := Answered(Flags(Half(avail, lo)))));
      && (h != l.seen ==> ClientOk(gen, d))
      && (h == l.seen ==>
          && ClientOk(gen, d.(owned := if l.allocate then c.owned + {g} else c.owned - {g}))
          && (if l.allocate then g in avail && g !in c.owned else g !in avail && g in c.owned))
  {
    hide StageOk;
    var h, g, m := Half(avail, lo), Global(l.channel, lo), c.call.m;
    LockTarget(m, l, lo);
    assert l.channel in h <==> g in avail;
    assert h != l.seen ==> Chans(m, Answered(Flags(h))) == Chans(m, Idle) by {
      hide ManageOk;
    }
  }

  lemma ChannelLockInv(w: World, i: nat, l: Chan, lo: bool)
    requires Inv(w) && Enabled(w, Execute(i))
    requires w.clients[i].call.m.stage == OnChannel(l, lo) || (w.clients[i].call.m.stage.OnUndo?
      && w.clients[i].call.m.stage.undo == l && lo == (w.clients[i].call.m.stage.taken >= 32))
    ensures Inv(ChannelLock(w, i, l, lo))
  {
    var c := w.clients[i];
    ClientAt(w, i);
    hide ClientOk, Inv, ManageOk, Chans;
    CurrentCall(w.gen, c);
    LockedClient(w.gen, w.avail, c, l, lo);
    LockTarget(c.call.m, l, lo);
    var w' := ChannelLock(w, i, l, lo);
    AvailBound(w);
    LockMoves(w, i, l, lo);
    hide ChannelLock;
    ClientStep(w, w', i);
  }

  /** A lock exchanges one channel at most, and nothing else. */
  lemma LockMoves(w: World, i: nat, l: Chan, lo: bool)
    requires i < |w.clients| && w.clients[i].call.Busy? && w.avail !! w.clients[i].owned
    requires Half(w.avail, lo) == l.seen ==> var g := Global(l.channel, lo);
      if l.allocate then g in w.avail && g !in w.clients[i].owned else g !in w.avail && g in w.clients[i].owned
    ensures var v, c := ChannelLock(w, i, l, lo), w.clients[i];
      && |v.clients| == |w.clients| && v.gen == w.gen && v.bw == w.bw && v.clients == w.clients[i := v.clients[i]]
      && v.avail + v.clients[i].owned == w.avail + c.owned && v.avail !! v.clients[i].owned && v.clients[i].units == c.units
  {
    hide Half;
  }

  lemma ClientAt(w: World, i: nat)
    requires Inv(w) && i < |w.clients|
    ensures ClientOk(w.gen, w.clients[i]) && w.avail !! w.clients[i].owned
  {
    hide ClientOk;
  }

  lemma CurrentCall(gen: nat, c: Client)
    requires ClientOk(gen, c) && c.call.Busy? && c.call.m.gen == gen
    ensures c.r.generation == gen && ManageOk(c.call.m)
  {
  }

  lemma AvailBound(w: World)
    requires Inv(w)
    ensures 0 <= w.bw && forall x | x in w.avail :: x < 64
  {
  }

  lemma BandLockedClient(gen: nat, bw: int, c: Client, b: Band)
    requires ClientOk(gen, c) && c.call.Busy? && c.call.ask.Idle? && c.r.generation == gen
    requires c.call.m.stage.OnBand? && c.call.m.stage.b == b && 0 <= bw && bw + c.units <= BANDWIDTH_AVAILABLE_INITIAL
    ensures var d := c.(call := c.call.(ask := Answered(Units(bw))));
      && b.amount > 0 && (!b.allocate ==> b.amount <= c.units) && 0 <= Wanted(b)
      && (bw != b.seen ==> ClientOk(gen, d))
      && (bw == b.seen ==> ClientOk(gen, d.(units := if b.allocate then c.units + b.amount else c.units - b.amount)))
  {
  }

  lemma BandLockInv(w: World, i: nat)
    requires Inv(w) && Enabled(w, Execute(i)) && w.clients[i].call.m.stage.OnBand?
    ensures Inv(Executed(w, i))
  {
    var c := w.clients[i];
    var b := c.call.m.stage.b;
    CurrentCall(w.gen, c);
    UnitsUpdate(w.clients, i, c);
    BandLockedClient(w.gen, w.bw, c, b);
    SameMask(w, i);
    hide ClientOk, Inv, ManageOk;
    ClientStep(w, Executed(w, i), i);
  }

  lemma SameMask(w: World, i: nat)
    requires Inv(w) && i < |w.clients|
    ensures 0 <= w.bw && w.avail !! w.clients[i].owned && forall x | x in w.avail :: x < 64
  {
  }

  // ---- going on with a reply -----------------------------------------------

  ghost predicate MaskOk(m: Manage) {
    m.mask != {} && (forall c | c in m.mask :: c < 64) && (!m.allocate ==> exists x :: m.mask == {x})
  }

  /** `n` continues call `m` and holds exactly `chans` and `units`. */
  ghost predicate Continues(m: Manage, n: Manage, chans: set<nat>, units: int) {
    n == m.(stage := n.stage) && ManageOk(n) && Chans(n, Idle) == chans && Bandwidth(n, Idle) == units
  }

  lemma EnterUndo(m: Manage, c: nat, err: int)
    requires MaskOk(m) && m.allocate && c in m.mask && err < 0
    ensures var n := UndoDone(m, c, err, Seek(ChanStart({c % 32}, false)));
      Continues(m, n, {c}, 0) && n.stage.OnUndo? && n.stage.err == err
  {
    SeekFinds(ChanStart({c % 32}, false), c % 32);
  }

  /** The channel is settled; bandwidth comes next. */
  lemma EnterBand(m: Manage, c: int)
    requires MaskOk(m) && (m.allocate ==> c >= 0 && c in m.mask)
    ensures ManageOk(AfterChannel(m, c)) && AfterChannel(m, c) == m.(stage := AfterChannel(m, c).stage)
    ensures m.allocate ==> Continues(m, AfterChannel(m, c), {c as nat}, 0) && !Again(AfterChannel(m, c))
    ensures !m.allocate ==> Chans(AfterChannel(m, c), Idle) == {} && !Again(AfterChannel(m, c))
    ensures !m.allocate && m.bandwidth <= BANDWIDTH_AVAILABLE_INITIAL ==> Bandwidth(AfterChannel(m, c), Idle) == m.bandwidth
  {
    if m.allocate && m.bandwidth > 0 {
      EnterUndo(m, c, EBUSY);
    }
  }

  /** The allocating channel loop ended without a channel, or goes on. */
  lemma ChannelGoesOn(m: Manage, lo: bool, o: Outcome<Chan>)
    requires MaskOk(m) && m.allocate
    requires o.More? ==> LoopOk(o.next, m.allocate) && o.next.mask == Half(m.mask, lo)
    requires o.Done? ==> o.ret < 0
    ensures Continues(m, ChannelDone(m, lo, o), {}, 0)
    ensures (o.Done? ==> o.ret != EAGAIN) ==> !Again(ChannelDone(m, lo, o))
    decreases !lo
  {
    if o.Done? && !lo && Half(m.mask, true) != {} {
      var k :| k in Half(m.mask, true);
      SeekFinds(ChanStart(Half(m.mask, true), true), k);
      ChannelGoesOn(m, true, Seek(ChanStart(Half(m.mask, true), m.allocate)));
    }
  }

  lemma AllocateChannel(m: Manage, l: Chan, lo: bool, reply: Reply)
    requires MaskOk(m) && ManageOk(m) && m.stage == OnChannel(l, lo) && m.allocate
    ensures var n, g := Respond(m, reply), Global(l.channel, lo);
      && Continues(m, n, if reply == Flags(l.seen) then {g} else {}, 0)
      && (!reply.Generation? ==> !Again(n)) && !GivesUpChannel(m, reply) && !GivesUpUnits(m, reply)
  {
    ChanAfterShrinks(l, reply);
    LockTarget(m, l, lo);
    if reply == Flags(l.seen) {
      EnterBand(m, Global(l.channel, lo));
    } else {
      ChannelGoesOn(m, lo, ChanAfter(l, reply));
    }
  }

  lemma ReleaseChannel(m: Manage, l: Chan, lo: bool, reply: Reply)
    requires MaskOk(m) && ManageOk(m) && m.stage == OnChannel(l, lo) && !m.allocate
    ensures var n, g := Respond(m, reply), Global(l.channel, lo);
      && n == m.(stage := n.stage) && ManageOk(n) && !Again(n) && !GivesUpUnits(m, reply)
      && (m.bandwidth <= BANDWIDTH_AVAILABLE_INITIAL ==> Bandwidth(n, Idle) == m.bandwidth)
      && (!reply.Generation? && reply != Flags(l.seen) && !GivesUpChannel(m, reply) ==> Chans(n, Idle) == {g})
      && (reply == Flags(l.seen) || GivesUpChannel(m, reply) ==> Chans(n, Idle) == {})
      && (reply == Flags(l.seen) ==> !GivesUpChannel(m, reply))
  {
    hide ChanAfter, MaskOk, Respond, ManageOk;
    LoopIs(m, l, lo);
    ChanAfterShrinks(l, reply);
    ReplyTaken(l, reply);
    var o := ChanAfter(l, reply);
    SingleHalf(m, lo, l.channel);
    if o.Done? {
      ReleaseEnds(m, lo, o);
    } else {
      ReleaseGoesOn(m, lo, o);
    }
    RespondIs(m, l, lo, reply);
  }

  lemma LoopIs(m: Manage, l: Chan, lo: bool)
    requires ManageOk(m) && m.stage == OnChannel(l, lo)
    ensures LoopOk(l, m.allocate) && l.mask == Half(m.mask, lo)
  {
  }

  lemma RespondIs(m: Manage, l: Chan, lo: bool, reply: Reply)
    requires m.stage == OnChannel(l, lo)
    ensures Respond(m, reply) == ChannelDone(m, lo, ChanAfter(l, reply))
  {
  }

  /** The loop returns a channel only if the swap worked or the generation is over. */
  lemma ReplyTaken(l: Chan, reply: Reply)
    requires l.channel < 32 && l.ret == EBUSY
    ensures var o := ChanAfter(l, reply);
      && (reply == Flags(l.seen) ==> o == Done(l.channel))
      && (o.Done? && o.ret >= 0 ==> reply == Flags(l.seen) || reply.Generation?)
  {
  }

  lemma ReleaseEnds(m: Manage, lo: bool, o: Outcome<Chan>)
    requires MaskOk(m) && !m.allocate && o.Done? && (!lo ==> Half(m.mask, true) == {})
    ensures var n := ChannelDone(m, lo, o);
      && n == m.(stage := n.stage) && ManageOk(n) && !Again(n) && Chans(n, Idle) == {}
      && (m.bandwidth <= BANDWIDTH_AVAILABLE_INITIAL ==> Bandwidth(n, Idle) == m.bandwidth)
  {
    hide AfterChannel;
    EnterBand(m, if lo && o.ret >= 0 then o.ret + 32 else o.ret);
  }

  lemma ReleaseGoesOn(m: Manage, lo: bool, o: Outcome<Chan>)
    requires MaskOk(m) && !m.allocate && o.More? && LoopOk(o.next, false) && o.next.mask == Half(m.mask, lo)
    ensures var n := ChannelDone(m, lo, o);
      && n == m.(stage := n.stage) && ManageOk(n) && !Again(n) && Bandwidth(n, Idle) == m.bandwidth
      && Chans(n, Idle) == m.mask
  {
    SingleHalf(m, lo, o.next.channel);
  }

  /** A mask of one channel concerns one register only. */
  lemma SingleHalf(m: Manage, lo: bool, c: nat)
    requires MaskOk(m) && !m.allocate && c in Half(m.mask, lo)
    ensures m.mask == {Global(c, lo)} && (!lo ==> Half(m.mask, true) == {})
  {
    var x :| m.mask == {x};
    assert Global(c, lo) in m.mask;
  }

  lemma AllocateUnits(m: Manage, b: Band, c: int, reply: Reply)
    requires MaskOk(m) && ManageOk(m) && m.stage == OnBand(b, c) && m.allocate
    ensures var n := Respond(m, reply);
      && Continues(m, n, {c as nat}, if reply == Units(b.seen) then m.bandwidth else 0)
      && (!reply.Generation? ==> !Again(n)) && !GivesUpChannel(m, reply) && !GivesUpUnits(m, reply)
  {
    var o := BandAfter(b, reply);
    if o.Done? && o.ret < 0 {
      EnterUndo(m, c, o.ret);
    }
  }

  lemma ReleaseUnits(m: Manage, b: Band, c: int, reply: Reply)
    requires MaskOk(m) && ManageOk(m) && m.stage == OnBand(b, c) && !m.allocate
    ensures var n := Respond(m, reply);
      && n == m.(stage := n.stage) && ManageOk(n) && !Again(n) && Chans(n, Idle) == {} && !GivesUpChannel(m, reply)
      && (!reply.Generation? && reply != Units(b.seen) && !GivesUpUnits(m, reply) ==> Bandwidth(n, Idle) == m.bandwidth)
      && (reply == Units(b.seen) || GivesUpUnits(m, reply) ==> Bandwidth(n, Idle) == 0)
      && (reply == Units(b.seen) ==> !GivesUpUnits(m, reply))
  {
  }

  lemma RollBack(m: Manage, l: Chan, c: nat, err: int, reply: Reply)
    requires MaskOk(m) && ManageOk(m) && m.stage == OnUndo(l, c, err)
    ensures var n := Respond(m, reply);
      && n == m.(stage := n.stage) && ManageOk(n) && Bandwidth(n, Idle) == 0 && !GivesUpUnits(m, reply)
      && (Again(n) ==> Again(m))
      && (!reply.Generation? && reply != Flags(l.seen) && !GivesUpChannel(m, reply) ==> Chans(n, Idle) == {c})
      && (reply == Flags(l.seen) || GivesUpChannel(m, reply) ==> Chans(n, Idle) == {})
      && (reply == Flags(l.seen) ==> !GivesUpChannel(m, reply))
  {
    ChanAfterShrinks(l, reply);
  }

  /** A reply of the current generation never changes what the call holds, except that a
      release loop that gives up leaks it. */
  lemma ReplyKeeps(m: Manage, ask: Ask, reply: Reply)
    requires MaskOk(m) && ManageOk(m) && !m.stage.Finished? && AskOk(m, ask)
    requires (ask.Idle? && reply.Failed?) || ask == Answered(reply)
    requires !m.allocate && m.stage.OnChannel? ==> m.bandwidth <= BANDWIDTH_AVAILABLE_INITIAL
    ensures var n := Respond(m, reply);
      && n == m.(stage := n.stage) && ManageOk(n) && (Again(n) ==> Again(m))
      && Chans(m, ask) == Chans(n, Idle) + (if GivesUpChannel(m, reply) then Chans(m, Idle) else {})
      && (GivesUpChannel(m, reply) ==> Chans(n, Idle) == {})
      && Bandwidth(m, ask) == Bandwidth(n, Idle) + (if GivesUpUnits(m, reply) then m.bandwidth else 0)
  {
    hide Respond, ManageOk, GivesUpChannel, GivesUpUnits, MaskOk;
    match m.stage
    case OnChannel(l, lo) =>
      LockTarget(m, l, lo);
      if m.allocate {
        AllocateChannel(m, l, lo, reply);
      } else {
        ReleaseChannel(m, l, lo, reply);
      }
    case OnBand(b, c) =>
      if m.allocate {
        AllocateUnits(m, b, c, reply);
        AllocatingBand(m);
      } else {
        ReleaseUnits(m, b, c, reply);
      }
    case OnUndo(l, c, err) =>
      RollBack(m, l, c, err, reply);
  }

  lemma AllocatingBand(m: Manage)
    requires ManageOk(m) && m.stage.OnBand? && m.allocate
    ensures m.stage.c >= 0
  {
  }

  /** After a generation change only the bookkeeping goes on. */
  lemma ReplyStale(m: Manage, reply: Reply)
    requires MaskOk(m) && ManageOk(m) && !m.stage.Finished?
    ensures var n := Respond(m, reply); n == m.(stage := n.stage) && ManageOk(n)
  {
    hide Respond, ManageOk, GivesUpChannel, GivesUpUnits, MaskOk;
    match m.stage
    case OnChannel(l, lo) =>
      if m.allocate {
        AllocateChannel(m, l, lo, reply);
      } else {
        ReleaseChannel(m, l, lo, reply);
      }
    case OnBand(b, c) =>
      if m.allocate {
        AllocateUnits(m, b, c, reply);
      } else {
        ReleaseUnits(m, b, c, reply);
      }
    case OnUndo(l, c, err) =>
      RollBack(m, l, c, err, reply);
  }

  lemma ClientMask(gen: nat, c: Client)
    requires ClientOk(gen, c) && c.call.Busy?
    ensures MaskOk(c.call.m) && ManageOk(c.call.m) && AskOk(c.call.m, c.call.ask)
  {
    hide StageOk, AskOk;
  }

  lemma AnswerCurrent(gen: nat, c: Client, reply: Reply)
    requires ClientOk(gen, c) && c.call.Busy? && !c.call.m.stage.Finished? && c.call.m.gen == gen
    requires (c.call.ask.Idle? && reply.Failed?) || c.call.ask == Answered(reply)
    requires c.units <= BANDWIDTH_AVAILABLE_INITIAL
    ensures ClientOk(gen, Answer(gen, c, reply))
  {
    ClientMask(gen, c);
    hide Respond, ManageOk, GivesUpChannel, GivesUpUnits, MaskOk, AskOk, Again, Bandwidth, Chans;
    var m := c.call.m;
    if !m.allocate && m.stage.OnChannel? {
      ReleasingAll(m, c.call.ask);
    }
    ReplyKeeps(m, c.call.ask, reply);
    NoQuestion(Respond(m, reply));
  }

  lemma NoQuestion(m: Manage)
    ensures AskOk(m, Idle)
  {
  }

  lemma ReleasingAll(m: Manage, ask: Ask)
    requires !m.allocate && m.stage.OnChannel?
    ensures Bandwidth(m, ask) == m.bandwidth
  {
  }

  lemma AnswerStale(gen: nat, c: Client, reply: Reply)
    requires ClientOk(gen, c) && c.call.Busy? && !c.call.m.stage.Finished? && c.call.m.gen != gen
    ensures ClientOk(gen, Answer(gen, c, reply))
  {
    ClientMask(gen, c);
    hide Respond, ManageOk, GivesUpChannel, GivesUpUnits, MaskOk, AskOk, Again, Bandwidth, Chans;
    ReplyStale(c.call.m, reply);
    NoQuestion(Respond(c.call.m, reply));
  }

  lemma AnswerInv(w: World, i: nat, reply: Reply)
    requires Inv(w) && Waits(w, i)
    requires w.clients[i].call.m.gen == w.gen ==>
      (w.clients[i].call.ask.Idle? && reply.Failed?) || w.clients[i].call.ask == Answered(reply)
    ensures Inv(w.(clients := w.clients[i := Answer(w.gen, w.clients[i], reply)]))
  {
    var c := w.clients[i];
    UnitsUpdate(w.clients, i, c);
    SameMask(w, i);
    UnitsBound(w, i);
    if c.call.m.gen == w.gen {
      AnswerCurrent(w.gen, c, reply);
    } else {
      AnswerStale(w.gen, c, reply);
    }
    hide ClientOk, Inv, Respond;
    ClientStep(w, w.(clients := w.clients[i := Answer(w.gen, c, reply)]), i);
  }

  lemma UnitsBound(w: World, i: nat)
    requires Inv(w) && i < |w.clients|
    ensures w.clients[i].units <= BANDWIDTH_AVAILABLE_INITIAL
  {
    UnitsUpdate(w.clients, i, w.clients[i]);
  }

  // ---- ending a call -------------------------------------------------------

  lemma EndedOk(gen: nat, c: Client, overhead: nat)
    requires ClientOk(gen, c) && c.call.Busy? && c.call.m.stage.Finished?
    ensures ClientOk(gen, Ended(gen, c, overhead))
  {
    hide Start, Respond;
    if c.call.kind.Allocate? && c.call.m.stage.channel == EAGAIN {
      StartOk(gen, c.r.mask, c.r.bandwidth + overhead, true);
      hide StageOk;
    }
  }

  lemma EndInv(w: World, i: nat, overhead: nat)
    requires Inv(w) && Enabled(w, End(i, overhead))
    ensures Inv(Step(w, End(i, overhead)))
  {
    var c := w.clients[i];
    SameMask(w, i);
    EndedOk(w.gen, c, overhead);
    hide ClientOk, Inv, Start;
    ClientStep(w, Step(w, End(i, overhead)), i);
  }

  lemma BeginInv(w: World, i: nat, kind: Kind, r: Resources, mask: set<nat>)
    requires Inv(w) && i < |w.clients| && ClientOk(w.gen, w.clients[i]) && w.clients[i].call.Quiet?
    requires var c := w.clients[i];
      && c.r.isAllocated == !kind.Allocate?
      && r == c.r.(generation := r.generation, bandwidth := r.bandwidth, overhead := r.overhead)
      && (if kind.Free? then r == c.r else r.generation == w.gen)
      && (kind.Update? ==> r.bandwidth == c.r.bandwidth)
    requires mask == if kind.Allocate? then r.mask else {r.channel}
    ensures var c := if kind.Update? then Forgotten(w.gen, w.clients[i]) else w.clients[i];
      Inv(w.(clients := w.clients[i := Began(w.gen, c, kind, r, mask)]))
  {
    hide ClientOk, Inv, Start;
    var c := w.clients[i];
    SameMask(w, i);
    BeganOk(w.gen, c, kind, r, mask);
    var d := if kind.Update? then Forgotten(w.gen, c) else c;
    ClientStep(w, w.(clients := w.clients[i := Began(w.gen, d, kind, r, mask)]), i);
  }

  /** Every step of every client, and every bus reset, keeps the bus consistent. */
  lemma StepInv(w: World, e: Event)
    requires Inv(w) && Enabled(w, e)
    ensures Inv(Step(w, e))
  {
    match e
    case Reset => ResetInv(w);
    case BeginAllocate(i, bandwidth, overhead) =>
      var r := w.clients[i].r.(bandwidth := bandwidth, generation := w.gen, overhead := overhead);
      if !w.clients[i].r.isAllocated {
        BeginInv(w, i, Allocate, r, r.mask);
      }
    case BeginUpdate(i, overhead) =>
      var r := w.clients[i].r.(generation := w.gen, overhead := overhead);
      if w.clients[i].r.isAllocated {
        BeginInv(w, i, Update, r, {r.channel});
      }
    case BeginFree(i) =>
      if w.clients[i].r.isAllocated {
        BeginInv(w, i, Free, w.clients[i].r, {w.clients[i].r.channel});
      }
    case Execute(i) =>
      ExecuteInv(w, i);
    case Deliver(i) =>
      AnswerInv(w, i, Received(w, w.clients[i].call));
    case Fail(i) =>
      AnswerInv(w, i, Failed);
    case End(i, overhead) =>
      EndInv(w, i, overhead);
  }

  lemma ExecuteInv(w: World, i: nat)
    requires Inv(w) && Enabled(w, Execute(i))
    ensures Inv(Executed(w, i))
  {
    hide Inv;
    match w.clients[i].call.m.stage
    case OnChannel(l, lo) => ChannelLockInv(w, i, l, lo);
    case OnUndo(l, taken, _) => ChannelLockInv(w, i, l, taken >= 32);
    case OnBand(_, _) => BandLockInv(w, i);
  }

  // ---- whole runs ----------------------------------------------------------

  /** Nobody has asked for anything yet. */
  ghost predicate Fresh(w: World) {
    && w.avail == Range(64) && w.bw == BANDWIDTH_AVAILABLE_INITIAL
    && forall i | 0 <= i < |w.clients| :: FreshClient(w.gen, w.clients[i])
  }

  predicate FreshClient(gen: nat, c: Client) {
    && c.r.mask != {} && (forall x | x in c.r.mask :: x < 64) && !c.r.isAllocated && c.r.generation <= gen
    && c.call.Quiet? && c.owned == c.leaked == {} && c.units == c.lost == 0
  }

  lemma FreshInv(w: World)
    requires Fresh(w)
    ensures Inv(w)
  {
    UnitsRenewed(w.clients);
  }

  ghost predicate LegalRun(w: World, es: seq<Event>)
    decreases |es|
  {
    es != [] ==> Enabled(w, es[0]) && LegalRun(Step(w, es[0]), es[1..])
  }

  ghost function Run(w: World, es: seq<Event>): World
    requires LegalRun(w, es)
    decreases |es|
  {
    if es == [] then w else Run(Step(w, es[0]), es[1..])
  }

  lemma {:induction false} RunInv(w: World, es: seq<Event>)
    requires Inv(w) && LegalRun(w, es)
    ensures Inv(Run(w, es))
    decreases |es|
  {
    hide Inv, Step;
    if es != [] {
      StepInv(w, es[0]);
      RunInv(Step(w, es[0]), es[1..]);
    }
  }

  function Promised(gen: nat, cs: seq<Client>): nat {
    if cs == [] then 0
    else (if Entitled(gen, cs[0]) then cs[0].r.bandwidth + cs[0].r.overhead else 0) + Promised(gen, cs[1..])
  }

  lemma {:induction false} PromisedBound(gen: nat, cs: seq<Client>)
    requires forall i | 0 <= i < |cs| :: ClientOk(gen, cs[i])
    ensures Promised(gen, cs) <= TotalUnits(cs)
  {
    if cs != [] {
      assert ClientOk(gen, cs[0]);
      hide ClientOk;
      PromisedBound(gen, cs[1..]);
    }
  }

  /** Over any run no channel has two holders in one generation, whether they know it or not, no
      two clients are told they have the same one, all bandwidth is accounted for, and no more
      of it is promised than there is. */
  lemma Exclusive(w: World, es: seq<Event>)
    requires Fresh(w) && LegalRun(w, es)
    ensures var v := Run(w, es);
      && (forall i, j | 0 <= i < j < |v.clients| :: v.clients[i].owned !! v.clients[j].owned)
      && (forall i | 0 <= i < |v.clients| :: v.avail !! v.clients[i].owned)
      && (forall i, j | 0 <= i < j < |v.clients| && Entitled(v.gen, v.clients[i]) && Entitled(v.gen, v.clients[j]) ::
          v.clients[i].r.channel != v.clients[j].r.channel)
      && v.bw + TotalUnits(v.clients) == BANDWIDTH_AVAILABLE_INITIAL
      && v.bw + Promised(v.gen, v.clients) <= BANDWIDTH_AVAILABLE_INITIAL
  {
    FreshInv(w);
    RunInv(w, es);
    var v := Run(w, es);
    PromisedBound(v.gen, v.clients);
    forall i, j | 0 <= i < j < |v.clients| && Entitled(v.gen, v.clients[i]) && Entitled(v.gen, v.clients[j])
      ensures v.clients[i].r.channel != v.clients[j].r.channel
    {
      TwoEntitled(v, i, j);
    }
  }

  lemma TwoEntitled(v: World, i: nat, j: nat)
    requires Inv(v) && i < j < |v.clients| && Entitled(v.gen, v.clients[i]) && Entitled(v.gen, v.clients[j])
    ensures v.clients[i].r.channel != v.clients[j].r.channel
  {
    assert v.clients[i].owned !! v.clients[j].owned;
    assert ClientOk(v.gen, v.clients[i]) && ClientOk(v.gen, v.clients[j]);
  }

  /** What a client holds of the current generation, between calls and when a call has ended:
      all of it or nothing, apart from what a release loop gave up on. */
  lemma AllOrNothing(w: World, i: nat)
    requires Inv(w) && i < |w.clients|
    ensures var c := w.clients[i];
      && (Entitled(w.gen, c) ==> c.owned == {c.r.channel} + c.leaked && c.units == c.r.bandwidth + c.r.overhead + c.lost)
      && (c.call.Quiet? && !c.r.isAllocated ==> c.owned == c.leaked && c.units == c.lost)
      && (c.call.Busy? && c.call.m.stage.Finished? && c.call.m.allocate && c.call.m.gen == w.gen ==>
          var ch := c.call.m.stage.channel;
          if ch >= 0 then c.owned == {ch as nat} + c.leaked && c.units == c.r.bandwidth + c.r.overhead + c.lost
          else c.owned == c.leaked && c.units == c.lost)
      && (c.call.Busy? && c.call.m.stage.Finished? && !c.call.m.allocate ==> c.owned == c.leaked && c.units == c.lost)
  {
    assert ClientOk(w.gen, w.clients[i]);
  }

  /** A release loop of the current generation runs out of retries. */
  predicate GivesUp(w: World, e: Event)
    requires Enabled(w, e)
  {
    match e
    case Deliver(i) =>
      var call := w.clients[i].call;
      call.m.gen == w.gen && (GivesUpChannel(call.m, Received(w, call)) || GivesUpUnits(call.m, Received(w, call)))
    case Fail(i) =>
      var call := w.clients[i].call;
      call.m.gen == w.gen && (GivesUpChannel(call.m, Failed) || GivesUpUnits(call.m, Failed))
    case _ => false
  }

  /** fw_iso_resources_update is called for resources that are held in this generation already:
      a second time, or in the generation of the allocation. */
  predicate Late(w: World, e: Event) {
    e.BeginUpdate? && e.i < |w.clients| && Entitled(w.gen, w.clients[e.i])
  }

  predicate Clean(c: Client) { c.leaked == {} && c.lost == 0 }

  ghost predicate AllClean(w: World) { forall i | 0 <= i < |w.clients| :: Clean(w.clients[i]) }

  /** A step leaks something exactly if a release gives up or an update comes late. */
  lemma CleanStep(w: World, e: Event)
    requires Inv(w) && Enabled(w, e) && AllClean(w)
    ensures AllClean(Step(w, e)) <==> !GivesUp(w, e) && !Late(w, e)
  {
    hide Respond, Start, GivesUpChannel, GivesUpUnits, Inv, Executed;
    match e
    case Deliver(i) =>
      AnswerClean(w, i, Received(w, w.clients[i].call));
    case Fail(i) =>
      AnswerClean(w, i, Failed);
    case Execute(i) =>
      ExecuteClean(w, i);
    case BeginUpdate(i, _) =>
      assert Late(w, e) ==> !Clean(Step(w, e).clients[i]);
    case _ =>
  }

  lemma AnswerClean(w: World, i: nat, reply: Reply)
    requires Inv(w) && AllClean(w) && Waits(w, i)
    ensures var c := w.clients[i];
      && Clean(Answer(w.gen, c, reply)) ==
        !(c.call.m.gen == w.gen && (GivesUpChannel(c.call.m, reply) || GivesUpUnits(c.call.m, reply)))
      && (Clean(Answer(w.gen, c, reply)) <==> AllClean(w.(clients := w.clients[i := Answer(w.gen, c, reply)])))
  {
    hide Respond;
    var c := w.clients[i];
    assert ClientOk(w.gen, c);
    ClientMask(w.gen, c);
    GivenUpIsSomething(c.call.m, reply);
    var v := w.(clients := w.clients[i := Answer(w.gen, c, reply)]);
    assert v.clients[i] == Answer(w.gen, c, reply);
  }

  lemma GivenUpIsSomething(m: Manage, reply: Reply)
    requires ManageOk(m)
    ensures GivesUpChannel(m, reply) ==> Chans(m, Idle) != {}
    ensures GivesUpUnits(m, reply) ==> m.bandwidth > 0
  {
    match m.stage
    case OnChannel(l, lo) => assert !m.allocate ==> Global(l.channel, lo) in Chans(m, Idle);
    case OnUndo(l, c, _) => assert c in Chans(m, Idle);
    case _ =>
  }

  lemma ExecuteClean(w: World, i: nat)
    requires AllClean(w) && Waits(w, i)
    ensures AllClean(Executed(w, i))
  {
  }

  ghost predicate NeverGivesUp(w: World, es: seq<Event>)
    requires LegalRun(w, es)
    decreases |es|
  {
    es != [] ==> !GivesUp(w, es[0]) && NeverGivesUp(Step(w, es[0]), es[1..])
  }

  /** Updates come at most once per generation, and not in the one of the allocation. */
  ghost predicate UpdatesInTime(w: World, es: seq<Event>)
    requires LegalRun(w, es)
    decreases |es|
  {
    es != [] ==> !Late(w, es[0]) && UpdatesInTime(Step(w, es[0]), es[1..])
  }

  /** Nothing is leaked at any time of the run. */
  ghost predicate AlwaysClean(w: World, es: seq<Event>)
    requires LegalRun(w, es)
    decreases |es|
  {
    AllClean(w) && (es != [] ==> AlwaysClean(Step(w, es[0]), es[1..]))
  }

  /** Over any run nothing is ever leaked if and only if no release loop exhausts its retries and
      no update comes late: then a client holds what it believes to hold, and nothing when its
      resources are not allocated. */
  lemma {:induction false} NothingLeaks(w: World, es: seq<Event>)
    requires Inv(w) && AllClean(w) && LegalRun(w, es)
    ensures AlwaysClean(w, es) <==> NeverGivesUp(w, es) && UpdatesInTime(w, es)
    ensures AlwaysClean(w, es) ==> AllClean(Run(w, es))
    decreases |es|
  {
    hide AllClean, Step, GivesUp, Inv, Late;
    if es != [] {
      CleanStep(w, es[0]);
      StepInv(w, es[0]);
      if AllClean(Step(w, es[0])) {
        NothingLeaks(Step(w, es[0]), es[1..]);
      }
    }
  }

  /** The only way for a release to fail is to run out of retries. */
  lemma GivingUpIsExhaustion(w: World, i: nat, reply: Reply)
    requires Inv(w) && Waits(w, i) && w.clients[i].call.m.gen == w.gen
    requires (w.clients[i].call.ask.Idle? && reply.Failed?) || w.clients[i].call.ask == Answered(reply)
    ensures var m := w.clients[i].call.m;
      && (GivesUpChannel(m, reply) ==> (if m.stage.OnUndo? then m.stage.undo else m.stage.l).retry == 0)
      && (GivesUpUnits(m, reply) ==> m.stage.b.tries == 4)
  {
    var c := w.clients[i];
    ClientMask(w.gen, c);
    hide Inv, ClientOk, MaskOk;
    ReleaseExhausted(c.call.m, c.call.ask, reply);
  }

  lemma ReleaseExhausted(m: Manage, ask: Ask, reply: Reply)
    requires ManageOk(m) && AskOk(m, ask) && !m.stage.Finished?
    requires (ask.Idle? && reply.Failed?) || ask == Answered(reply)
    ensures GivesUpChannel(m, reply) ==> (if m.stage.OnUndo? then m.stage.undo else m.stage.l).retry == 0
    ensures GivesUpUnits(m, reply) ==> m.stage.b.tries == 4
  {
    hide ChanAfter, BandAfter, Seek;
    match m.stage
    case OnChannel(l, lo) =>
      if !m.allocate {
        ChanExhausted(l, reply);
      }
    case OnUndo(l, taken, _) =>
      ChanExhausted(l, reply);
    case OnBand(b, _) =>
      if !m.allocate {
        BandExhausted(b, reply);
      }
  }

  lemma ChanExhausted(l: Chan, reply: Reply)
    requires Candidate(l) && l.channel < 32 && !l.allocate && (reply.Failed? || (reply.Flags? && l.channel !in reply.bits))
    ensures ChanAfter(l, reply).Done? && ChanAfter(l, reply).ret < 0 ==> l.retry == 0
  {
    hide Seek;
    SeekSame(l);
  }

  lemma BandExhausted(b: Band, reply: Reply)
    requires !b.allocate && b.tries < 5 && 0 <= b.amount && 0 <= Wanted(b) <= BANDWIDTH_AVAILABLE_INITIAL
    requires reply.Failed? || (reply.Units? && 0 <= reply.n && reply.n + b.amount <= BANDWIDTH_AVAILABLE_INITIAL)
    ensures BandAfter(b, reply).Done? && BandAfter(b, reply).ret < 0 ==> b.tries == 4
  {
  }

  /** As long as retries are left, the loop asks again for the same channel. */
  lemma SeekSame(l: Chan)
    requires Candidate(l) && l.channel < 32 && !l.allocate
    ensures forall seen: set<nat> | l.channel !in seen :: Seek(Retry(l.(seen := seen))).More? || l.retry == 0
    ensures Seek(Retry(l)).More? || l.retry == 0
  {
  }

  // ---- updating twice in one generation ------------------------------------

  /** Answers of a register in which channel `c` is taken, without a bus reset. */
  predicate Taken(reply: Reply, c: nat) { reply.Failed? || (reply.Flags? && c !in reply.bits) }

  ghost predicate Hopeless(m: Manage, c: nat) {
    && m.allocate && m.mask == {c} && c < 64
    && match m.stage
      case OnChannel(l, lo) => LoopOk(l, true) && l.mask == Half(m.mask, lo)
      case Finished(ch, _) => ch == EBUSY || ch == EIO
      case _ => false
  }

  lemma HopelessStep(m: Manage, c: nat, reply: Reply)
    requires Hopeless(m, c) && Taken(reply, c % 32)
    ensures Hopeless(Respond(m, reply), c)
  {
    if m.stage.OnChannel? {
      var l, lo := m.stage.l, m.stage.lo;
      ChanAfterShrinks(l, reply);
      assert l.channel == c % 32 && lo == (c >= 32);
      if !lo {
        assert Half(m.mask, true) == {};
      }
    }
  }

  /** Client `i` is in an update for channel `c` which it holds already and has lost track of, with `q` units of bandwidth. */
  ghost predicate Lapsed(w: World, i: nat, c: nat, q: nat) {
    && i < |w.clients| && w.clients[i].call.Busy? && w.clients[i].call.kind.Update?
    && w.clients[i].call.m.gen == w.gen && Hopeless(w.clients[i].call.m, c) && c in w.clients[i].leaked && q <= w.clients[i].lost
    && (w.clients[i].call.ask.Answered? ==> Taken(w.clients[i].call.ask.reply, c % 32))
  }

  lemma LapsedStart(w: World, i: nat, overhead: nat)
    requires Inv(w) && i < |w.clients| && Entitled(w.gen, w.clients[i])
    ensures Enabled(w, BeginUpdate(i, overhead))
    ensures var r := w.clients[i].r; Lapsed(Step(w, BeginUpdate(i, overhead)), i, r.channel, r.bandwidth + r.overhead)
  {
    hide Start;
    var c := w.clients[i];
    assert ClientOk(w.gen, c);
    StartOk(w.gen, {c.r.channel}, c.r.bandwidth + overhead, true);
  }

  /** What a client has leaked is not available. */
  lemma LeakedIsTaken(w: World, i: nat, c: nat)
    requires Inv(w) && i < |w.clients| && c in w.clients[i].leaked
    ensures c !in w.avail && c in w.clients[i].owned
  {
    assert ClientOk(w.gen, w.clients[i]);
    hide CallOk, Due;
  }

  lemma LapsedExecute(w: World, i: nat, c: nat, q: nat)
    requires Inv(w) && Lapsed(w, i, c, q) && Enabled(w, Execute(i))
    ensures Lapsed(Step(w, Execute(i)), i, c, q)
  {
    hide Inv, Hopeless, Half;
    LeakedIsTaken(w, i, c);
    HopelessLock(w.clients[i].call.m, c, w.avail);
  }

  /** The channel that a hopeless call asks for is taken, and it believes otherwise. */
  lemma HopelessLock(m: Manage, c: nat, avail: set<nat>)
    requires Hopeless(m, c) && !m.stage.Finished? && c !in avail
    ensures m.stage.OnChannel? && Half(avail, m.stage.lo) != m.stage.l.seen && Taken(Flags(Half(avail, m.stage.lo)), c % 32)
  {
    var l, lo := m.stage.l, m.stage.lo;
    assert l.channel in Half({c}, lo);
    assert l.channel == c % 32 && l.channel !in Half(avail, lo);
  }

  lemma LapsedAnswer(w: World, i: nat, c: nat, q: nat, reply: Reply)
    requires Lapsed(w, i, c, q) && Waits(w, i) && Taken(reply, c % 32)
    ensures Lapsed(w.(clients := w.clients[i := Answer(w.gen, w.clients[i], reply)]), i, c, q)
  {
    hide Respond, Hopeless, GivesUpChannel, GivesUpUnits;
    HopelessStep(w.clients[i].call.m, c, reply);
    RespondKeepsGen(w.clients[i].call.m, c, reply);
  }

  lemma RespondKeepsGen(m: Manage, c: nat, reply: Reply)
    requires Hopeless(m, c)
    ensures Respond(m, reply).gen == m.gen
  {
    if m.stage.OnChannel? {
      ChannelDoneGen(m, m.stage.lo, ChanAfter(m.stage.l, reply));
    }
  }

  lemma ChannelDoneGen(m: Manage, lo: bool, o: Outcome<Chan>)
    ensures ChannelDone(m, lo, o).gen == m.gen
    decreases !lo
  {
    if !lo && o.Done? {
      ChannelDoneGen(m, true, Seek(ChanStart(Half(m.mask, true), m.allocate)));
    }
  }

  lemma OthersStep(w: World, e: Event, i: nat)
    requires Enabled(w, e) && i < |w.clients| && !e.Reset? && e.i != i
    ensures Step(w, e).gen == w.gen && |Step(w, e).clients| == |w.clients| && Step(w, e).clients[i] == w.clients[i]
  {
    hide Start, Respond, Half;
  }

  lemma LapsedStep(w: World, e: Event, i: nat, c: nat, q: nat)
    requires Inv(w) && Lapsed(w, i, c, q) && Enabled(w, e) && !e.Reset? && !(e.End? && e.i == i)
    ensures Lapsed(Step(w, e), i, c, q)
  {
    if e.i != i {
      hide Inv, Hopeless, Step;
      OthersStep(w, e, i);
    } else {
      hide Inv, Hopeless;
      match e
      case Execute(_) => LapsedExecute(w, i, c, q);
      case Deliver(_) => LapsedAnswer(w, i, c, q, Received(w, w.clients[i].call));
      case Fail(_) => LapsedAnswer(w, i, c, q, Failed);
    }
  }

  ghost predicate Undisturbed(es: seq<Event>, i: nat) {
    forall e | e in es :: !e.Reset? && !(e.End? && e.i == i)
  }

  lemma {:induction false} LapsedRun(w: World, es: seq<Event>, i: nat, c: nat, q: nat)
    requires Inv(w) && Lapsed(w, i, c, q) && LegalRun(w, es) && Undisturbed(es, i)
    ensures Inv(Run(w, es)) && Lapsed(Run(w, es), i, c, q)
    decreases |es|
  {
    hide Inv, Lapsed, Step;
    if es != [] {
      assert es[0] in es && forall e | e in es[1..] :: e in es;
      StepInv(w, es[0]);
      LapsedStep(w, es[0], i, c, q);
      LapsedRun(Step(w, es[0]), es[1..], i, c, q);
    }
  }

  /** An update that comes late always fails, whatever the others do: when it returns before the
      next reset, the client believes to hold nothing and still holds its channel and bandwidth. */
  lemma LateUpdateForgets(w: World, i: nat, overhead: nat, es: seq<Event>, again: nat)
    requires Inv(w) && i < |w.clients| && Late(w, BeginUpdate(i, overhead))
    requires Enabled(w, BeginUpdate(i, overhead)) && LegalRun(Step(w, BeginUpdate(i, overhead)), es) && Undisturbed(es, i)
    requires Enabled(Run(Step(w, BeginUpdate(i, overhead)), es), End(i, again))
    ensures var c, v := w.clients[i], Step(Run(Step(w, BeginUpdate(i, overhead)), es), End(i, again));
      && Inv(v) && i < |v.clients| && v.clients[i].call.Quiet? && !v.clients[i].r.isAllocated
      && c.r.channel in v.clients[i].owned && c.r.channel in v.clients[i].leaked && c.r.channel !in v.avail
      && c.r.bandwidth + c.r.overhead <= v.clients[i].units
  {
    hide Inv, Run, LegalRun, Hopeless, Start;
    var w1 := Step(w, BeginUpdate(i, overhead));
    LapsedStart(w, i, overhead);
    StepInv(w, BeginUpdate(i, overhead));
    LapsedRun(w1, es, i, w.clients[i].r.channel, w.clients[i].r.bandwidth + w.clients[i].r.overhead);
    var u := Run(w1, es);
    HopelessEnd(u.clients[i].call.m, w.clients[i].r.channel);
    StepInv(u, End(i, again));
    LeakedIsTaken(Step(u, End(i, again)), i, w.clients[i].r.channel);
    AllOrNothing(Step(u, End(i, again)), i);
  }

  lemma HopelessEnd(m: Manage, c: nat)
    requires Hopeless(m, c) && m.stage.Finished?
    ensures m.stage.channel == EBUSY || m.stage.channel == EIO
  {
  }

  // ---- it happens ----------------------------------------------------------

  lemma RunCons(w: World, e: Event, rest: seq<Event>)
    requires Enabled(w, e) && LegalRun(Step(w, e), rest)
    ensures LegalRun(w, [e] + rest) && Run(w, [e] + rest) == Run(Step(w, e), rest)
  {
    hide Step;
    assert ([e] + rest)[1..] == rest;
  }

  // A client that wants channel 0 and 100 units, in a world in which nothing is held.

  const SEEKING: Manage := Manage(1, {0}, 100, true, OnChannel(Chan({0}, true, Range(32), 0, 5, EBUSY), false))
  const BANDING: Manage := Manage(1, {0}, 100, true, OnBand(Band(100, true, BANDWIDTH_AVAILABLE_INITIAL, 0), 0))
  const GRANTED: Manage := Manage(1, {0}, 100, true, Finished(0, 100))

  function SampleCall(k: nat): Call {
    match k
    case 1 => Busy(Allocate, SEEKING, Idle)
    case 2 => Busy(Allocate, SEEKING, Answered(Flags(Range(32))))
    case 3 => Busy(Allocate, BANDING, Idle)
    case 4 => Busy(Allocate, BANDING, Answered(Units(BANDWIDTH_AVAILABLE_INITIAL)))
    case 5 => Busy(Allocate, GRANTED, Idle)
    case _ => Quiet
  }

  /** The world after `k` steps of the allocation. */
  function SampleWorld(k: nat): World {
    World(1, if k < 2 then Range(64) else Range(64) - {0}, BANDWIDTH_AVAILABLE_INITIAL - (if k < 4 then 0 else 100),
          [Client(Resources({0}, k > 5, 0, if k == 0 then 0 else 100, 0, 1), SampleCall(k), if k < 2 then {} else {0},
                  if k < 4 then 0 else 100, {}, 0)])
  }

  function SampleEvent(k: nat): Event {
    match k
    case 0 => BeginAllocate(0, 100, 0)
    case 1 => Execute(0)
    case 2 => Deliver(0)
    case 3 => Execute(0)
    case 4 => Deliver(0)
    case _ => End(0, 0)
  }

  lemma SampleStart()
    ensures Start(1, {0}, 100, true) == SEEKING
  {
    assert Half({0}, false) == {0};
    hide Half, Range;
    assert Seek(ChanStart({0}, true)) == More(Chan({0}, true, Range(32), 0, 5, EBUSY));
  }

  lemma SampleReplies()
    ensures Respond(SEEKING, Flags(Range(32))) == BANDING
    ensures Respond(BANDING, Units(BANDWIDTH_AVAILABLE_INITIAL)) == GRANTED
  {
    hide Half, Range, Seek;
  }

  lemma SampleRegister()
    ensures Half(Range(64), false) == Range(32) && Toggle(Range(64), 0) == Range(64) - {0}
  {
  }

  lemma SampleStep(k: nat)
    requires k < 6
    ensures Enabled(SampleWorld(k), SampleEvent(k)) && Step(SampleWorld(k), SampleEvent(k)) == SampleWorld(k + 1)
  {
    hide Start, Respond, Half, Range, Toggle;
    SampleStart();
    SampleReplies();
    SampleRegister();
    var w := SampleWorld(k);
    assert w.clients == [w.clients[0]];
    assert SampleWorld(k + 1).clients == [SampleWorld(k + 1).clients[0]];
    if k == 0 {
      assert Step(w, SampleEvent(0)).clients[0] == SampleWorld(1).clients[0];
    } else if k == 1 {
      assert Step(w, SampleEvent(1)).clients[0] == SampleWorld(2).clients[0];
    } else if k == 2 {
      assert Step(w, SampleEvent(2)).clients[0] == SampleWorld(3).clients[0];
    } else if k == 3 {
      assert Step(w, SampleEvent(3)).clients[0] == SampleWorld(4).clients[0];
    } else if k == 4 {
      assert Step(w, SampleEvent(4)).clients[0] == SampleWorld(5).clients[0];
    }
  }

  /** The steps from number `k` on. */
  ghost function SampleRun(k: nat): (es: seq<Event>)
    requires k <= 6
    decreases 6 - k
  {
    if k == 6 then [] else [SampleEvent(k)] + SampleRun(k + 1)
  }

  lemma {:induction false} SampleRunIs(k: nat)
    requires k <= 6
    ensures LegalRun(SampleWorld(k), SampleRun(k)) && Run(SampleWorld(k), SampleRun(k)) == SampleWorld(6)
    decreases 6 - k
  {
    hide SampleWorld, SampleEvent, Step, Enabled;
    if k < 6 {
      SampleStep(k);
      SampleRunIs(k + 1);
      RunCons(SampleWorld(k), SampleEvent(k), SampleRun(k + 1));
    }
  }

  /** A late update happens: right after an allocation that went through, in a world in which
      nothing was held before. */
  lemma LateHappens()
    ensures Fresh(SampleWorld(0)) && LegalRun(SampleWorld(0), SampleRun(0))
    ensures var w := Run(SampleWorld(0), SampleRun(0)); Enabled(w, BeginUpdate(0, 0)) && Late(w, BeginUpdate(0, 0))
  {
    hide SampleRun, LegalRun, Run, Fresh, SampleWorld;
    SampleRunIs(0);
    SampleFresh();
    SampleHolds();
  }

  lemma SampleFresh()
    ensures Fresh(SampleWorld(0))
  {
    hide Range;
  }

  lemma SampleHolds()
    ensures Enabled(SampleWorld(6), BeginUpdate(0, 0)) && Late(SampleWorld(6), BeginUpdate(0, 0))
  {
    hide Range;
  }
}
