/** The registry of address handlers for inbound requests: allocation of address ranges and
    dispatch of requests.  Offsets and lengths are such that their sums fit into 64 bits. */
module AddressHandlers {
  import opened Basics
  import opened Arith

  const SPACE: nat := 0x1_0000_0000_0000
  const FCP_COMMAND: nat := 0xffff_f000_0b00
  const FCP_END: nat := 0xffff_f000_0f00

  datatype Handler = Handler(offset: nat, length: nat)
  datatype Region = Region(start: nat, end: nat)

  predicate InFcp(offset: nat, length: nat) { offset >= FCP_COMMAND && offset + length <= FCP_END }

  predicate Overlaps(h: Handler, offset: nat, length: nat) {
    h.offset < offset + length && offset < h.offset + h.length
  }

  predicate Encloses(h: Handler, offset: nat, length: nat) {
    h.offset <= offset && offset + length <= h.offset + h.length
  }

  /** No address in common. */
  ghost predicate Disjoint(g: Handler, h: Handler) {
    forall a: nat :: !(Encloses(g, a, 1) && Encloses(h, a, 1))
  }

  predicate HandlerOk(h: Handler) {
    h.length > 0 && h.length % 4 == 0 && h.offset % 4 == 0 && h.offset + h.length <= SPACE
  }

  ghost predicate Inv(hs: seq<Handler>) {
    && (forall k | 0 <= k < |hs| :: HandlerOk(hs[k]))
    && (forall i, j | 0 <= i < j < |hs| && !InFcp(hs[i].offset, hs[i].length) && !InFcp(hs[j].offset, hs[j].length) ::
        Disjoint(hs[i], hs[j]))
  }

  lemma DisjointIff(g: Handler, h: Handler)
    requires g.length > 0 && h.length > 0
    ensures Disjoint(g, h) <==> !Overlaps(g, h.offset, h.length)
  {
    if Overlaps(g, h.offset, h.length) {
      var a := if g.offset < h.offset then h.offset else g.offset;
      assert Encloses(g, a, 1) && Encloses(h, a, 1);
    }
  }

  /** A non-empty request outside the FCP range is enclosed by at most one handler. */
  lemma EnclosedOnce(hs: seq<Handler>, i: nat, j: nat, offset: nat, length: nat)
    requires Inv(hs) && i < |hs| && j < |hs| && length > 0 && !InFcp(offset, length)
    requires Encloses(hs[i], offset, length) && Encloses(hs[j], offset, length)
    ensures i == j
  {
    assert Encloses(hs[i], offset, 1) && Encloses(hs[j], offset, 1);
  }

  lemma RemoveInv(hs: seq<Handler>, k: nat)
    requires Inv(hs) && k < |hs|
    ensures Inv(hs[..k] + hs[k + 1..])
  {
    hide Disjoint;
    var r := hs[..k] + hs[k + 1..];
    forall i | 0 <= i < |r| ensures r[i] == hs[if i < k then i else i + 1] {
    }
    forall i, j | 0 <= i < j < |r| && !InFcp(r[i].offset, r[i].length) && !InFcp(r[j].offset, r[j].length)
      ensures Disjoint(r[i], r[j])
    {
      assert r[i] == hs[if i < k then i else i + 1] && r[j] == hs[if j < k then j else j + 1];
    }
  }

  lemma AddInv(hs: seq<Handler>, h: Handler)
    requires Inv(hs) && HandlerOk(h)
    requires InFcp(h.offset, h.length) || forall k | 0 <= k < |hs| :: !Overlaps(hs[k], h.offset, h.length)
    ensures Inv(hs + [h])
  {
    var r := hs + [h];
    forall i, j | 0 <= i < j < |r| && !InFcp(r[i].offset, r[i].length) && !InFcp(r[j].offset, r[j].length)
      ensures Disjoint(r[i], r[j])
    {
      if j == |hs| {
        DisjointIff(hs[i], h);
      } else {
        assert Disjoint(hs[i], hs[j]);
      }
    }
  }

  /** What fw_core_add_address_handler checks before it looks for room. */
  predicate Acceptable(r: Region, length: nat) {
    r.start % 4 == 0 && r.start < SPACE && r.start < r.end <= SPACE && length % 4 == 0 && length > 0
  }

  // ---- the search for a free range -----------------------------------------

  /** The first handler that is in the way. */
  function FirstOverlap(hs: seq<Handler>, offset: nat, length: nat): (r: Option<nat>)
    ensures r.Some? ==> r.value < |hs|
  {
    if hs == [] then None
    else if Overlaps(hs[0], offset, length) then Some(0)
    else
      var r := FirstOverlap(hs[1..], offset, length);
      if r.None? then None else Some(r.value + 1)
  }

  lemma {:induction false} FirstOverlapIs(hs: seq<Handler>, offset: nat, length: nat)
    ensures var r := FirstOverlap(hs, offset, length);
      && (r.None? <==> forall k | 0 <= k < |hs| :: !Overlaps(hs[k], offset, length))
      && (r.Some? ==> Overlaps(hs[r.value], offset, length))
      && (r.Some? ==> forall k | 0 <= k < r.value :: !Overlaps(hs[k], offset, length))
  {
    hide Overlaps;
    if hs != [] && !Overlaps(hs[0], offset, length) {
      FirstOverlapIs(hs[1..], offset, length);
    }
  }

  lemma {:induction false} FirstOverlapAt(hs: seq<Handler>, offset: nat, length: nat, i: nat)
    requires i <= |hs| && forall k | 0 <= k < i :: !Overlaps(hs[k], offset, length)
    requires i == |hs| || Overlaps(hs[i], offset, length)
    ensures FirstOverlap(hs, offset, length) == if i == |hs| then None else Some(i)
  {
    FirstOverlapIs(hs, offset, length);
  }

  /** Nothing is in the way at `offset`, or overlaps are allowed there. */
  predicate Usable(hs: seq<Handler>, offset: nat, length: nat) {
    InFcp(offset, length) || FirstOverlap(hs, offset, length).None?
  }

  /** The offset that is tried after `offset`. */
  function NextProbe(hs: seq<Handler>, offset: nat, length: nat): (next: nat)
    ensures next >= offset
  {
    if Usable(hs, offset, length) then offset else offset + hs[FirstOverlap(hs, offset, length).value].length
  }

  /** The n-th offset that is tried. */
  function Probe(hs: seq<Handler>, start: nat, length: nat, n: nat): (offset: nat)
    ensures offset >= start
  {
    if n == 0 then start else NextProbe(hs, Probe(hs, start, length, n - 1), length)
  }

  /** Some offset that is tried lies in the region and can be used. */
  ghost predicate Findable(hs: seq<Handler>, region: Region, length: nat) {
    exists n: nat :: Hit(hs, region, length, n)
  }

  ghost predicate Hit(hs: seq<Handler>, region: Region, length: nat, n: nat) {
    var o := Probe(hs, region.start, length, n); o + length <= region.end && Usable(hs, o, length)
  }

  lemma {:induction false} ProbesGrow(hs: seq<Handler>, start: nat, length: nat, m: nat, n: nat)
    requires m <= n
    ensures Probe(hs, start, length, m) <= Probe(hs, start, length, n)
  {
    if m < n {
      ProbesGrow(hs, start, length, m, n - 1);
    }
  }

  /** Once an offset is too far or usable, no later one is a new hit. */
  lemma NoLaterHit(hs: seq<Handler>, region: Region, length: nat, n: nat)
    requires Probe(hs, region.start, length, n) + length > region.end
    requires forall m: nat | m < n :: !Hit(hs, region, length, m)
    ensures !Findable(hs, region, length)
  {
    forall m: nat ensures !Hit(hs, region, length, m) {
      if m >= n {
        ProbesGrow(hs, region.start, length, n, m);
      }
    }
  }

  lemma AcceptableIs(r: Region, length: nat)
    requires Acceptable(r, length)
    ensures r.start % 4 == 0 && r.start < r.end <= SPACE && length % 4 == 0 && length > 0
  {
  }

  lemma ProbeStart(hs: seq<Handler>, start: nat, length: nat)
    ensures Probe(hs, start, length, 0) == start
  {
  }

  lemma ProbeStep(hs: seq<Handler>, start: nat, length: nat, n: nat)
    requires !Usable(hs, Probe(hs, start, length, n), length)
    ensures FirstOverlap(hs, Probe(hs, start, length, n), length).Some?
    ensures var o := Probe(hs, start, length, n);
      Probe(hs, start, length, n + 1) == o + hs[FirstOverlap(hs, o, length).value].length
  {
    hide FirstOverlap;
  }

  lemma UsableIs(hs: seq<Handler>, offset: nat, length: nat)
    ensures Usable(hs, offset, length) <==> InFcp(offset, length) || FirstOverlap(hs, offset, length).None?
  {
  }

  lemma HitIs(hs: seq<Handler>, region: Region, length: nat, n: nat)
    ensures var o := Probe(hs, region.start, length, n);
      Hit(hs, region, length, n) <==> o + length <= region.end && Usable(hs, o, length)
    ensures Hit(hs, region, length, n) ==> Findable(hs, region, length)
  {
    hide Probe, Usable;
  }

  lemma AllOk(hs: seq<Handler>, k: nat, offset: nat)
    requires Inv(hs) && k < |hs| && offset % 4 == 0
    ensures hs[k].length > 0 && (offset + hs[k].length) % 4 == 0
  {
  }

  /** A usable offset makes a handler that fits in. */
  lemma NewHandler(hs: seq<Handler>, offset: nat, length: nat, region: Region)
    requires Inv(hs) && Usable(hs, offset, length) && offset % 4 == 0 && length % 4 == 0 && length > 0
    requires offset + length <= region.end <= SPACE
    ensures Inv(hs + [Handler(offset, length)])
    ensures !InFcp(offset, length) ==> forall k | 0 <= k < |hs| :: Disjoint(hs[k], Handler(offset, length))
  {
    FirstOverlapIs(hs, offset, length);
    AddInv(hs, Handler(offset, length));
    Apart(hs, Handler(offset, length));
  }

  /** The search can miss a free range: it goes on by the length of the handler in the way and
      not to its end.  With a handler at 4..12, eight bytes are not found in 0..20 although
      12..20 is free. */
  lemma SearchMisses()
    ensures var hs, region := [Handler(4, 8)], Region(0, 20);
      && Acceptable(region, 8) && HandlerOk(hs[0])
      && Usable(hs, 12, 8) && 12 + 8 <= region.end && !Findable(hs, region, 8)
  {
    var hs, region := [Handler(4, 8)], Region(0, 20);
    FirstOverlapIs(hs, 0, 8);
    FirstOverlapIs(hs, 8, 8);
    FirstOverlapIs(hs, 12, 8);
    assert Overlaps(hs[0], 0, 8) && Overlaps(hs[0], 8, 8) && !Overlaps(hs[0], 12, 8);
    assert Probe(hs, 0, 8, 0) == 0;
    assert Probe(hs, 0, 8, 1) == NextProbe(hs, 0, 8) == 8;
    assert Probe(hs, 0, 8, 2) == NextProbe(hs, 8, 8) == 16;
    forall m: nat | m < 2 ensures !Hit(hs, region, 8, m) {
      assert m == 0 || m == 1;
    }
    NoLaterHit(hs, region, 8, 2);
  }

  // ---- regions that are cut into slots -------------------------------------

  /** Every handler that meets the region is one of its slots of the given length. */
  ghost predicate Slotted(hs: seq<Handler>, region: Region, length: nat)
    requires length > 0 && region.start < region.end
  {
    forall k | 0 <= k < |hs| && Overlaps(hs[k], region.start, region.end - region.start) ::
      hs[k].length == length && region.start <= hs[k].offset && (hs[k].offset - region.start) % length == 0
  }

  function SlotAt(region: Region, length: nat, m: nat): (offset: nat)
    ensures offset >= region.start
  {
    region.start + m * length
  }

  ghost predicate SlotUsable(hs: seq<Handler>, region: Region, length: nat, m: nat) {
    SlotAt(region, length, m) + length <= region.end && Usable(hs, SlotAt(region, length, m), length)
  }

  /** No handler has an address of the range in common. */
  ghost predicate FreeAt(hs: seq<Handler>, region: Region, length: nat, x: nat) {
    && region.start <= x && x + length <= region.end
    && forall k | 0 <= k < |hs| :: !Overlaps(hs[k], x, length)
  }

  lemma NextSlot(region: Region, length: nat, m: nat)
    ensures SlotAt(region, length, m + 1) == SlotAt(region, length, m) + length
  {
  }

  /** In a slot that is in use, the handler in the way has the length of the slots. */
  lemma SlotStep(hs: seq<Handler>, region: Region, length: nat, m: nat)
    requires length > 0 && region.start < region.end && Slotted(hs, region, length)
    requires SlotAt(region, length, m) + length <= region.end && !Usable(hs, SlotAt(region, length, m), length)
    ensures NextProbe(hs, SlotAt(region, length, m), length) == SlotAt(region, length, m + 1)
  {
    var o := SlotAt(region, length, m);
    NextSlot(region, length, m);
    hide SlotAt, FirstOverlap;
    FirstOverlapIs(hs, o, length);
    assert Overlaps(hs[FirstOverlap(hs, o, length).value], region.start, region.end - region.start);
  }

  /** Up to the first usable one, the search tries the slots one by one. */
  lemma {:induction false} ProbesSlots(hs: seq<Handler>, region: Region, length: nat, n: nat)
    requires length > 0 && region.start < region.end && Slotted(hs, region, length)
    requires forall m: nat | m < n :: SlotAt(region, length, m) + length <= region.end && !SlotUsable(hs, region, length, m)
    ensures Probe(hs, region.start, length, n) == SlotAt(region, length, n)
  {
    if n > 0 {
      ProbesSlots(hs, region, length, n - 1);
      hide Slotted, NextProbe, Usable;
      assert !SlotUsable(hs, region, length, n - 1);
      SlotStep(hs, region, length, n - 1);
    }
  }

  lemma {:induction false} SlotFound(hs: seq<Handler>, region: Region, length: nat, m: nat)
    requires length > 0 && region.start < region.end && Slotted(hs, region, length) && SlotUsable(hs, region, length, m)
    ensures Findable(hs, region, length)
  {
    hide Slotted, Usable, Probe;
    if j: nat :| j < m && SlotUsable(hs, region, length, j) {
      SlotFound(hs, region, length, j);
    } else {
      forall j: nat | j < m ensures SlotAt(region, length, j) + length <= region.end {
        SlotsOrdered(region, length, j, m);
      }
      ProbesSlots(hs, region, length, m);
      HitIs(hs, region, length, m);
    }
  }

  lemma {:induction false} SlotsOrdered(region: Region, length: nat, j: nat, m: nat)
    requires j <= m
    ensures SlotAt(region, length, j) <= SlotAt(region, length, m)
  {
    if j < m {
      SlotsOrdered(region, length, j, m - 1);
      NextSlot(region, length, m - 1);
    }
  }

  lemma HitIsSlot(hs: seq<Handler>, region: Region, length: nat, n: nat)
    requires length > 0 && region.start < region.end && Slotted(hs, region, length) && Hit(hs, region, length, n)
    ensures exists m: nat :: SlotUsable(hs, region, length, m)
  {
    if forall m: nat :: !SlotUsable(hs, region, length, m) {
      NoSlotUsable(hs, region, length, n, n);
      assert SlotUsable(hs, region, length, n);
    }
  }

  lemma {:induction false} NoSlotUsable(hs: seq<Handler>, region: Region, length: nat, j: nat, n: nat)
    requires length > 0 && region.start < region.end && Slotted(hs, region, length)
    requires j <= n && Probe(hs, region.start, length, n) + length <= region.end
    requires forall m: nat :: !SlotUsable(hs, region, length, m)
    ensures Probe(hs, region.start, length, j) == SlotAt(region, length, j)
    ensures SlotAt(region, length, j) + length <= region.end
  {
    hide Slotted, NextProbe, Usable;
    ProbesGrow(hs, region.start, length, j, n);
    if j > 0 {
      NoSlotUsable(hs, region, length, j - 1, n);
      assert !SlotUsable(hs, region, length, j - 1);
      SlotStep(hs, region, length, j - 1);
    }
  }

  /** A free range lies in a slot that no handler uses. */
  lemma FreeInSlot(hs: seq<Handler>, region: Region, length: nat, x: nat) returns (m: nat)
    requires length > 0 && region.start < region.end && Slotted(hs, region, length) && FreeAt(hs, region, length, x)
    ensures SlotUsable(hs, region, length, m)
  {
    m := (x - region.start) / length;
    var o := SlotAt(region, length, m);
    assert o <= x < o + length;
    hide SlotAt, FirstOverlap;
    forall k | 0 <= k < |hs| ensures !Overlaps(hs[k], o, length) {
      SlotCovers(hs, region, length, m, x, k);
    }
    FirstOverlapIs(hs, o, length);
  }

  lemma SlotCovers(hs: seq<Handler>, region: Region, length: nat, m: nat, x: nat, k: nat)
    requires length > 0 && region.start < region.end && Slotted(hs, region, length) && k < |hs|
    requires SlotAt(region, length, m) <= x < SlotAt(region, length, m) + length <= region.end
    ensures !Overlaps(hs[k], x, length) ==> !Overlaps(hs[k], SlotAt(region, length, m), length)
  {
    if Overlaps(hs[k], SlotAt(region, length, m), length) {
      var q := (hs[k].offset - region.start) / length;
      assert hs[k].offset == region.start + q * length;
      SameSlot(q, m, length);
    }
  }

  lemma SameSlot(q: nat, m: nat, length: nat)
    requires q * length < m * length + length && m * length < q * length + length
    ensures q == m
  {
    var d := m - q;
    assert d * length == m * length - q * length && (-d) * length == -(d * length);
    if d >= 1 {
      MulAtLeast(d, length);
    } else if d <= -1 {
      MulAtLeast(-d, length);
    }
  }

  /** Where all handlers of a region have the requested length and keep to its slots, the search
      succeeds exactly if a slot can be used, and finds room whenever there is some. */
  lemma SlottedSearch(hs: seq<Handler>, region: Region, length: nat)
    requires length > 0 && region.start < region.end && Slotted(hs, region, length)
    ensures Findable(hs, region, length) <==> exists m: nat :: SlotUsable(hs, region, length, m)
    ensures (exists x: nat :: FreeAt(hs, region, length, x)) ==> Findable(hs, region, length)
  {
    hide Slotted, SlotUsable, FreeAt, Hit;
    if m: nat :| SlotUsable(hs, region, length, m) {
      SlotFound(hs, region, length, m);
    }
    if n: nat :| Hit(hs, region, length, n) {
      HitIsSlot(hs, region, length, n);
    }
    if x: nat :| FreeAt(hs, region, length, x) {
      var m := FreeInSlot(hs, region, length, x);
      SlotFound(hs, region, length, m);
    }
  }

  // ---- the registry --------------------------------------------------------

  const FCP_RESPONSE: nat := 0xffff_f000_0d00

  datatype Rcode = Complete | TypeError | AddressError

  class Registry {
    var handlers: seq<Handler>

    ghost predicate Valid()
      reads this
    {
      Inv(handlers)
    }

    constructor ()
      ensures Valid() && handlers == []
    {
      handlers := [];
    }

    /** lookup_overlapping_address_handler */
    method LookupOverlapping(offset: nat, length: nat) returns (found: Option<nat>)
      ensures found == FirstOverlap(handlers, offset, length)
      ensures found.None? <==> forall k | 0 <= k < |handlers| :: !Overlaps(handlers[k], offset, length)
    {
      hide Overlaps;
      FirstOverlapIs(handlers, offset, length);
      for i := 0 to |handlers|
        invariant forall k | 0 <= k < i :: !Overlaps(handlers[k], offset, length)
      {
        if Overlaps(handlers[i], offset, length) {
          FirstOverlapAt(handlers, offset, length, i);
          return Some(i);
        }
      }
      FirstOverlapAt(handlers, offset, length, |handlers|);
      return None;
    }

    /** fw_core_add_address_handler: the search ends, and what it finds lies in the region and
        touches no other handler unless it is inside the FCP range; it fails exactly if no
        offset that it tries can be used. */
    method AddHandler(length: nat, region: Region) returns (ret: int, offset: nat)
      requires Valid()
      modifies this
      ensures Valid()
      ensures ret == EINVAL <==> !Acceptable(region, length)
      ensures ret == 0 || ret == EINVAL || ret == EBUSY
      ensures Acceptable(region, length) ==> (ret == 0 <==> Findable(old(handlers), region, length))
      ensures ret == 0 ==> Usable(old(handlers), offset, length)
      ensures ret != 0 ==> handlers == old(handlers)
      ensures ret == 0 ==>
        && handlers == old(handlers) + [Handler(offset, length)]
        && region.start <= offset && offset + length <= region.end
        && (!InFcp(offset, length) ==> forall k | 0 <= k < |old(handlers)| :: Disjoint(old(handlers)[k], Handler(offset, length)))
    {
      offset := 0;
      if !Acceptable(region, length) {
        return EINVAL, 0;
      }
      hide *;
      AcceptableIs(region, length);
      offset := region.start;
      ghost var n := 0;
      ProbeStart(handlers, region.start, length);
      while offset + length <= region.end
        invariant region.start <= offset && offset % 4 == 0 && handlers == old(handlers) && Inv(handlers)
        invariant offset == Probe(handlers, region.start, length, n)
        invariant forall m: nat | m < n :: !Hit(handlers, region, length, m)
        decreases region.end - offset
      {
        UsableIs(handlers, offset, length);
        HitIs(handlers, region, length, n);
        var other := None;
        if !InFcp(offset, length) {
          other := LookupOverlapping(offset, length);
        }
        if other.Some? {
          AllOk(handlers, other.value, offset);
          ProbeStep(handlers, region.start, length, n);
          offset := offset + handlers[other.value].length;
          n := n + 1;
        } else {
          NewHandler(handlers, offset, length, region);
          handlers := handlers + [Handler(offset, length)];
          return 0, offset;
        }
      }
      NoLaterHit(handlers, region, length, n);
      return EBUSY, offset;
    }

    /** fw_core_remove_address_handler */
    method RemoveHandler(k: nat)
      requires Valid() && k < |handlers|
      modifies this
      ensures Valid() && handlers == old(handlers)[..k] + old(handlers)[k + 1..]
    {
      RemoveInv(handlers, k);
      handlers := handlers[..k] + handlers[k + 1..];
    }

    /** handle_exclusive_region_request: the one handler that encloses the request. */
    method Dispatch(offset: nat, length: nat) returns (found: Option<nat>)
      requires Valid() && !InFcp(offset, length)
      ensures found.None? <==> forall k | 0 <= k < |handlers| :: !Encloses(handlers[k], offset, length)
      ensures found.Some? ==> found.value < |handlers| && Encloses(handlers[found.value], offset, length)
      ensures found.Some? && length > 0 ==>
        forall k | 0 <= k < |handlers| :: Encloses(handlers[k], offset, length) <==> k == found.value
    {
      for i := 0 to |handlers|
        invariant forall k | 0 <= k < i :: !Encloses(handlers[k], offset, length)
      {
        if Encloses(handlers[i], offset, length) {
          forall k | 0 <= k < |handlers| && Encloses(handlers[k], offset, length) && length > 0 ensures k == i {
            EnclosedOnce(handlers, i, k, offset, length);
          }
          return Some(i);
        }
      }
      return None;
    }

    /** handle_fcp_region_request: requests other than writes to the command and response
        registers are refused, writes go to every enclosing handler, once and in order. */
    method DispatchFcp(offset: nat, length: nat, isWrite: bool) returns (rcode: Rcode, found: seq<nat>)
      ensures rcode == if (offset != FCP_COMMAND && offset != FCP_RESPONSE) || length > 0x200 then AddressError
        else if !isWrite then TypeError else Complete
      ensures rcode != Complete ==> found == []
      ensures rcode == Complete ==>
        forall k: nat :: k in found <==> k < |handlers| && Encloses(handlers[k], offset, length)
      ensures forall i, j | 0 <= i < j < |found| :: found[i] < found[j]
    {
      found := [];
      if (offset != FCP_COMMAND && offset != FCP_RESPONSE) || length > 0x200 {
        return AddressError, [];
      }
      if !isWrite {
        return TypeError, [];
      }
      for i := 0 to |handlers|
        invariant forall k: nat :: k in found <==> k < i && Encloses(handlers[k], offset, length)
        invariant forall a, b | 0 <= a < b < |found| :: found[a] < found[b]
      {
        if Encloses(handlers[i], offset, length) {
          assert forall a | 0 <= a < |found| :: found[a] in found;
          found := found + [i];
        }
      }
      return Complete, found;
    }
  }

  lemma Apart(hs: seq<Handler>, h: Handler)
    requires (forall k | 0 <= k < |hs| :: HandlerOk(hs[k])) && h.length > 0
    ensures (forall k | 0 <= k < |hs| :: !Overlaps(hs[k], h.offset, h.length)) ==>
      forall k | 0 <= k < |hs| :: Disjoint(hs[k], h)
  {
    forall k | 0 <= k < |hs| ensures !Overlaps(hs[k], h.offset, h.length) ==> Disjoint(hs[k], h) {
      DisjointIff(hs[k], h);
    }
  }
}
