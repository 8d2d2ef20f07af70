/** read_config_rom: the stack-driven walk over a device's configuration ROM.

    The device answers every read as it likes: a reply depends on when it is asked as well as
    on the index.  Quadlets are 32-bit values.
 */
module RomReader {
  import opened Basics

  const SIZE: nat := 256
  const ROOT_DIRECTORY: u32 := 0xc000_0005

  datatype Status = Complete | Busy | Failed | OutOfRange

  // ---- fields of a quadlet -------------------------------------------------

  function Offset(q: u32): nat { q % 0x100_0000 }
  function Kind(q: u32): nat { q / 0x4000_0000 }
  function BlockLength(q: u32): nat { q / 0x1_0000 }

  predicate IsPointer(q: u32) { Kind(q) >= 2 }
  predicate PointsInside(i: nat, q: u32) { i + Offset(q) < SIZE }

  /** The reference that entry `q` at index `i` pushes. */
  function Reference(i: nat, q: u32): (key: u32)
    requires PointsInside(i, q)
    ensures Offset(key) == i + Offset(q) && Kind(key) == Kind(q)
  {
    var rest, offset := q / 0x100_0000, q % 0x100_0000;
    ReferenceParts(rest, offset + i);
    q + i
  }

  lemma ReferenceParts(rest: nat, offset: nat)
    requires offset < 0x100_0000
    ensures (0x100_0000 * rest + offset) / 0x100_0000 == rest && (0x100_0000 * rest + offset) % 0x100_0000 == offset
  {
  }

  // ---- the stack -----------------------------------------------------------

  /** Stack entry `key`, found at index `source`, points at or behind that index. */
  predicate EntryOk(key: u32, source: nat) { source <= Offset(key) < SIZE }

  predicate Increasing(src: seq<nat>) { forall a, b | 0 <= a < b < |src| :: src[a] < src[b] }

  ghost predicate StackOk(keys: seq<u32>, src: seq<nat>, bound: nat) {
    && |keys| == |src| && Increasing(src)
    && (forall k | 0 <= k < |src| :: EntryOk(keys[k], src[k]))
    && (forall k | 0 <= k < |src| :: src[k] < bound)
  }

  lemma {:induction false} IncreasingBound(src: seq<nat>, bound: nat)
    requires Increasing(src) && forall k | 0 <= k < |src| :: src[k] < bound
    ensures |src| <= bound
  {
    if src != [] {
      var front := src[..|src| - 1];
      IncreasingBound(front, src[|src| - 1]);
    }
  }

  lemma StackPush(keys: seq<u32>, src: seq<nat>, key: u32, i: nat)
    requires StackOk(keys, src, i) && EntryOk(key, i)
    ensures StackOk(keys + [key], src + [i], i + 1)
  {
  }

  // ---- why the walk ends ---------------------------------------------------

  /** The sources on the stack as a binary number, smaller indices weighing more. */
  function Weight(src: seq<nat>): nat {
    if src == [] then 0 else
    Weight(src[..|src| - 1]) + (if src[|src| - 1] < SIZE then Pow2(SIZE - src[|src| - 1]) else 0)
  }

  /** All references found in a block weigh less than the one that led to it. */
  lemma {:induction false} WeightBelow(src: seq<nat>, base: nat, p: nat, bound: nat)
    requires base <= |src| && Increasing(src) && p < bound <= SIZE
    requires forall k | base <= k < |src| :: p < src[k] < bound
    ensures Weight(src) <= Weight(src[..base]) + Pow2(SIZE - p) - Pow2(SIZE - (bound - 1))
  {
    if |src| == base {
      assert src[..base] == src;
      PowMonotone(SIZE - (bound - 1), SIZE - p);
    } else {
      var last, front := src[|src| - 1], src[..|src| - 1];
      assert front[..base] == src[..base];
      WeightBelow(front, base, p, last);
      assert Pow2(SIZE - (last - 1)) == 2 * Pow2(SIZE - last);
      PowMonotone(SIZE - (bound - 1), SIZE - last);
    }
  }

  lemma WeightPop(src: seq<nat>)
    requires src != [] && src[|src| - 1] < SIZE
    ensures Weight(src) == Weight(src[..|src| - 1]) + Pow2(SIZE - src[|src| - 1])
  {
  }

  // ---- an honest device ----------------------------------------------------

  /** A block of the ROM and whether it is read as a directory. */
  datatype Ref = Ref(at: nat, dir: bool)

  function RefOf(key: u32): Ref { Ref(Offset(key), Kind(key) == 3) }

  predicate InBlock(image: seq<u32>, r: Ref, i: nat)
    requires r.at < |image|
  {
    r.at <= i <= r.at + BlockLength(image[r.at])
  }

  /** The block that entry `i` of directory `r` refers to. */
  function Entry(image: seq<u32>, r: Ref, i: nat): Option<Ref> {
    if r.at < |image| && i < |image| && r.dir && r.at < i && InBlock(image, r, i)
       && IsPointer(image[i]) && PointsInside(i, image[i])
    then Some(RefOf(Reference(i, image[i]))) else None
  }

  /** The block reached from the root directory through the given entries. */
  function Follow(image: seq<u32>, path: seq<nat>): Option<Ref> {
    if path == [] then Some(RefOf(ROOT_DIRECTORY)) else
    var r := Follow(image, path[..|path| - 1]);
    if r.None? then None else Entry(image, r.value, path[|path| - 1])
  }

  ghost predicate Reachable(image: seq<u32>, r: Ref) { exists path :: Follow(image, path) == Some(r) }

  /** The block lies inside the ROM and its pointers stay inside. */
  ghost predicate BlockFits(image: seq<u32>, r: Ref) {
    && r.at < |image| == SIZE && r.at + BlockLength(image[r.at]) < SIZE
    && (r.dir ==> forall i | r.at < i <= r.at + BlockLength(image[r.at]) ::
          IsPointer(image[i]) ==> PointsInside(i, image[i]))
  }

  ghost predicate WellFormed(image: seq<u32>) {
    |image| == SIZE && image[0] != 0 && forall r | Reachable(image, r) :: BlockFits(image, r)
  }

  type Device = (nat, nat) -> Option<u32>

  ghost predicate Honest(dev: Device, image: seq<u32>) {
    |image| == SIZE && forall t, i: nat | i < SIZE :: dev(t, i) == Some(image[i])
  }

  lemma EntryReachable(image: seq<u32>, r: Ref, i: nat)
    requires Reachable(image, r) && Entry(image, r, i).Some?
    ensures Reachable(image, Entry(image, r, i).value)
  {
    var path :| Follow(image, path) == Some(r);
    var longer := path + [i];
    assert longer[..|path|] == path;
    assert Follow(image, longer) == Entry(image, r, i);
  }

  lemma RootReachable(image: seq<u32>)
    ensures Reachable(image, RefOf(ROOT_DIRECTORY))
  {
    assert Follow(image, []) == Some(RefOf(ROOT_DIRECTORY));
  }

  // ---- reading one block ---------------------------------------------------

  /** The references that entries lo..hi of an honest image push. */
  function Pushed(image: seq<u32>, dir: bool, lo: nat, hi: nat): (keys: seq<u32>)
    requires hi <= |image|
  {
    if hi <= lo then [] else
    var q := image[hi - 1];
    Pushed(image, dir, lo, hi - 1)
    + (if dir && IsPointer(q) && PointsInside(hi - 1, q) then [Reference(hi - 1, q)] else [])
  }

  /** The part of the walk that handles one reference, found at index `p`: the sources on the
      stack keep increasing, and an honest device's block is copied and its pointers pushed. */
  method ReadBlock(dev: Device, time: nat, key: u32, rom: array<u32>, stack: array<u32>, sp: nat,
                   ghost src: seq<nat>, ghost p: nat, ghost image: seq<u32>)
    returns (ok: bool, now: nat, top: nat, i: nat, ghost found: seq<nat>)
    requires rom.Length == stack.Length == SIZE && rom != stack && sp <= SIZE
    requires StackOk(stack[..sp], src, p) && EntryOk(key, p)
    modifies rom, stack
    ensures ok ==> sp <= top <= SIZE && stack[..sp] == old(stack[..sp]) && StackOk(stack[..top], src + found, SIZE)
    ensures forall x | x in found :: p < x
    ensures Offset(key) < SIZE && (ok ==> Offset(key) < i <= SIZE)
    ensures forall x | 0 <= x < SIZE && (x < Offset(key) || i <= x) :: rom[x] == old(rom[x])
    ensures Honest(dev, image) && BlockFits(image, RefOf(key)) ==>
      && ok && i == Offset(key) + BlockLength(image[Offset(key)]) + 1
      && (forall x | Offset(key) <= x < i :: rom[x] == image[x])
      && stack[..top] == old(stack[..sp]) + Pushed(image, RefOf(key).dir, Offset(key) + 1, i)
  {
    hide Follow, StackOk, Honest, Reference, BlockFits, IsPointer, PointsInside, BlockLength, Offset, Kind, Pushed;
    OffsetBound(key, p);
    i, now, top, found := Offset(key), time, sp, [];
    ghost var at := i;
    ok := true;
    var end;
    ok, end := ReadHeader(dev, now, i, rom, image, RefOf(key));
    now := now + 1;
    if !ok {
      return false, now, top, SIZE, found;
    }
    i := i + 1;
    StackWiden(stack[..sp], src, p, i);
    PushedNone(image, RefOf(key).dir, i);
    assert src + found == src;
    while i < end
      invariant at < i <= SIZE && (i <= end || end == at) && end <= SIZE
      invariant sp <= top <= SIZE && stack[..sp] == old(stack[..sp]) && StackOk(stack[..top], src + found, i)
      invariant forall x | x in found :: p < x
      invariant forall x | 0 <= x < SIZE && (x < at || i <= x) :: rom[x] == old(rom[x])
      invariant Honest(dev, image) && BlockFits(image, RefOf(key)) ==>
        && end == at + BlockLength(image[at]) + 1
        && (forall x | at <= x < i :: rom[x] == image[x])
        && stack[..top] == old(stack[..sp]) + Pushed(image, RefOf(key).dir, at + 1, i)
    {
      var reply := dev(now, i);
      now := now + 1;
      HonestReads(dev, image, now - 1, i);
      if reply.None? {
        return false, now, top, SIZE, found;
      }
      rom[i] := reply.value;
      FitsPointer(image, RefOf(key), i);
      if i < |image| {
        PushedStep(image, RefOf(key).dir, at + 1, i);
      }
      ghost var below, more := stack[..top], [];
      top, more := TakeEntry(Kind(key) == 3, rom, stack, i, top, src + found);
      assert below[..sp] == old(stack[..sp]) && stack[..sp] == below[..sp];
      assert src + found + more == src + (found + more);
      found := found + more;
      i := i + 1;
    }
    StackWiden(stack[..top], src + found, i, SIZE);
  }

  /** The header of a block; a block that leaves the image is cleared and skipped. */
  method ReadHeader(dev: Device, now: nat, i: nat, rom: array<u32>, ghost image: seq<u32>, ghost r: Ref)
    returns (ok: bool, end: nat)
    requires rom.Length == SIZE && i < SIZE && r.at == i
    modifies rom
    ensures forall x | 0 <= x < SIZE && x != i :: rom[x] == old(rom[x])
    ensures end == i || i < end <= SIZE
    ensures ok <==> dev(now, i).Some?
    ensures ok ==> var q := dev(now, i).value; var next := i + BlockLength(q) + 1;
      if next > SIZE then rom[i] == 0 && end == i else rom[i] == q && end == next
    ensures Honest(dev, image) && BlockFits(image, r) ==>
      ok && |image| == SIZE && end == i + BlockLength(image[i]) + 1 && rom[i] == image[i]
  {
    hide Honest, BlockFits, BlockLength;
    HonestReads(dev, image, now, i);
    FitsIs(image, r);
    var reply := dev(now, i);
    if reply.None? {
      return false, i;
    }
    rom[i] := reply.value;
    end := i + BlockLength(rom[i]) + 1;
    if end > SIZE {
      rom[i] := 0;
      end := i;
    }
    ok := true;
  }

  lemma PushedNone(image: seq<u32>, dir: bool, i: nat)
    ensures i <= |image| ==> Pushed(image, dir, i, i) == []
  {
  }

  lemma PushedStep(image: seq<u32>, dir: bool, lo: nat, i: nat)
    requires lo <= i < |image|
    ensures Pushed(image, dir, lo, i + 1) == Pushed(image, dir, lo, i)
      + (if dir && IsPointer(image[i]) && PointsInside(i, image[i]) then [Reference(i, image[i])] else [])
  {
  }

  /** One entry of a block: in a directory a pointer goes to the stack, or is cleared if it
      points outside. */
  method TakeEntry(dir: bool, rom: array<u32>, stack: array<u32>, i: nat, top: nat, ghost src: seq<nat>)
    returns (next: nat, ghost more: seq<nat>)
    requires rom.Length == stack.Length == SIZE && rom != stack && i < SIZE && top <= SIZE
    requires StackOk(stack[..top], src, i)
    modifies rom, stack
    ensures top <= next <= SIZE && StackOk(stack[..next], src + more, i + 1) && (more == [] || more == [i])
    ensures var q := old(rom[i]); var pointer := dir && IsPointer(q);
      && stack[..next] == old(stack[..top]) + (if pointer && PointsInside(i, q) then [Reference(i, q)] else [])
      && rom[i] == (if pointer && !PointsInside(i, q) then 0 else q)
    ensures forall x | 0 <= x < SIZE && x != i :: rom[x] == old(rom[x])
  {
    hide StackOk, Reference, IsPointer, PointsInside;
    ghost var below := stack[..top];
    next, more := top, [];
    assert src + more == src;
    if dir && IsPointer(rom[i]) && PointsInside(i, rom[i]) {
      TopBound(below, src, i);
      ReferenceOk(i, rom[i]);
      StackPush(below, src, Reference(i, rom[i]), i);
      stack[top] := Reference(i, rom[i]);
      next, more := top + 1, [i];
      assert stack[..next] == below + [Reference(i, rom[i])];
    } else {
      StackWiden(below, src, i, i + 1);
      if dir && IsPointer(rom[i]) {
        rom[i] := 0;
      }
    }
  }

  lemma HonestReads(dev: Device, image: seq<u32>, t: nat, i: nat)
    requires i < SIZE
    ensures Honest(dev, image) ==> |image| == SIZE && dev(t, i) == Some(image[i])
  {
  }

  lemma StackWiden(keys: seq<u32>, src: seq<nat>, a: nat, b: nat)
    requires StackOk(keys, src, a) && a <= b
    ensures StackOk(keys, src, b)
  {
  }

  lemma TopBound(keys: seq<u32>, src: seq<nat>, bound: nat)
    requires StackOk(keys, src, bound)
    ensures |keys| <= bound
  {
    IncreasingBound(src, bound);
  }

  lemma FitsIs(image: seq<u32>, r: Ref)
    ensures BlockFits(image, r) ==> |image| == SIZE && r.at + BlockLength(image[r.at]) < SIZE
  {
  }

  lemma FitsPointer(image: seq<u32>, r: Ref, i: nat)
    ensures BlockFits(image, r) && r.dir && r.at < i && InBlock(image, r, i) && IsPointer(image[i]) ==>
      PointsInside(i, image[i])
  {
  }

  lemma OffsetBound(key: u32, p: nat)
    requires EntryOk(key, p)
    ensures p <= Offset(key) < SIZE
    ensures RefOf(key).at == Offset(key) && RefOf(key).dir == (Kind(key) == 3)
  {
  }

  lemma ReferenceOk(i: nat, q: u32)
    requires PointsInside(i, q)
    ensures EntryOk(Reference(i, q), i)
  {
  }

  // ---- everything reachable is reached -------------------------------------

  ghost predicate Copied(image: seq<u32>, rom: seq<u32>, r: Ref) {
    && |rom| == |image| == SIZE && r.at < SIZE
    && forall i | 0 <= i < SIZE && InBlock(image, r, i) :: rom[i] == image[i]
  }

  ghost predicate OnStack(keys: seq<u32>, r: Ref) { exists k :: 0 <= k < |keys| && RefOf(keys[k]) == r }

  /** The block was read, or waits on the stack. */
  ghost predicate Covered(keys: seq<u32>, visited: set<Ref>, r: Ref) { r in visited || OnStack(keys, r) }

  ghost predicate Closed(image: seq<u32>, keys: seq<u32>, visited: set<Ref>) {
    && Covered(keys, visited, RefOf(ROOT_DIRECTORY))
    && forall r, i | r in visited && Entry(image, r, i).Some? :: Covered(keys, visited, Entry(image, r, i).value)
  }

  ghost predicate AllReachable(image: seq<u32>, keys: seq<u32>) {
    forall k | 0 <= k < |keys| :: Reachable(image, RefOf(keys[k]))
  }

  ghost predicate AllCopied(image: seq<u32>, rom: seq<u32>, visited: set<Ref>) {
    forall r | r in visited :: Copied(image, rom, r)
  }

  lemma {:induction false} PushedSound(image: seq<u32>, r: Ref, hi: nat, k: nat)
    requires r.at < |image| && r.dir && hi <= |image| && hi <= r.at + BlockLength(image[r.at]) + 1
    requires k < |Pushed(image, true, r.at + 1, hi)|
    ensures exists i :: Entry(image, r, i) == Some(RefOf(Pushed(image, true, r.at + 1, hi)[k]))
  {
    hide Reference;
    var front := Pushed(image, true, r.at + 1, hi - 1);
    if k < |front| {
      PushedSound(image, r, hi - 1, k);
    } else {
      assert Entry(image, r, hi - 1) == Some(RefOf(Pushed(image, true, r.at + 1, hi)[k]));
    }
  }

  lemma {:induction false} PushedComplete(image: seq<u32>, r: Ref, hi: nat, i: nat)
    requires r.at < i < hi <= |image| && Entry(image, r, i).Some?
    ensures OnStack(Pushed(image, true, r.at + 1, hi), Entry(image, r, i).value)
  {
    hide Reference;
    var all, front := Pushed(image, true, r.at + 1, hi), Pushed(image, true, r.at + 1, hi - 1);
    if i < hi - 1 {
      PushedComplete(image, r, hi - 1, i);
      var k :| 0 <= k < |front| && RefOf(front[k]) == Entry(image, r, i).value;
      assert all[k] == front[k];
    } else {
      assert all[|front|] == Reference(i, image[i]);
    }
  }

  lemma {:induction false} PushedLeaf(image: seq<u32>, lo: nat, hi: nat)
    requires hi <= |image|
    ensures Pushed(image, false, lo, hi) == []
  {
    if lo < hi {
      PushedLeaf(image, lo, hi - 1);
    }
  }

  lemma WalkReachable(image: seq<u32>, below: seq<u32>, r: Ref, end: nat)
    requires AllReachable(image, below) && Reachable(image, r) && r.at < |image|
    requires end <= |image| && end == r.at + BlockLength(image[r.at]) + 1
    ensures AllReachable(image, below + Pushed(image, r.dir, r.at + 1, end))
  {
    hide Pushed, Entry, Reachable;
    var more := Pushed(image, r.dir, r.at + 1, end);
    var keys := below + more;
    if !r.dir {
      PushedLeaf(image, r.at + 1, end);
    }
    forall k | 0 <= k < |keys| ensures Reachable(image, RefOf(keys[k])) {
      if k >= |below| {
        assert keys[k] == more[k - |below|];
        PushedSound(image, r, end, k - |below|);
        var i :| Entry(image, r, i) == Some(RefOf(more[k - |below|]));
        EntryReachable(image, r, i);
      } else {
        assert keys[k] == below[k];
      }
    }
  }

  lemma CoveredStep(below: seq<u32>, key: u32, more: seq<u32>, visited: set<Ref>, x: Ref)
    requires Covered(below + [key], visited, x)
    ensures Covered(below + more, visited + {RefOf(key)}, x)
  {
    if x !in visited {
      var before := below + [key];
      var k :| 0 <= k < |before| && RefOf(before[k]) == x;
      if k < |below| {
        assert (below + more)[k] == below[k];
      }
    }
  }

  lemma EntryCovered(image: seq<u32>, below: seq<u32>, visited: set<Ref>, r: Ref, end: nat, i: nat)
    requires r.at < |image| && end <= |image| && end == r.at + BlockLength(image[r.at]) + 1 && Entry(image, r, i).Some?
    ensures Covered(below + Pushed(image, r.dir, r.at + 1, end), visited, Entry(image, r, i).value)
  {
    hide Pushed;
    var more := Pushed(image, true, r.at + 1, end);
    PushedComplete(image, r, end, i);
    var k :| 0 <= k < |more| && RefOf(more[k]) == Entry(image, r, i).value;
    assert (below + more)[|below| + k] == more[k];
  }

  lemma WalkClosed(image: seq<u32>, below: seq<u32>, key: u32, visited: set<Ref>, end: nat)
    requires Closed(image, below + [key], visited) && Offset(key) < |image|
    requires end <= |image| && end == Offset(key) + BlockLength(image[Offset(key)]) + 1
    ensures Closed(image, below + Pushed(image, RefOf(key).dir, Offset(key) + 1, end), visited + {RefOf(key)})
  {
    hide Pushed, Entry, Covered;
    var ref := RefOf(key);
    var more := Pushed(image, ref.dir, Offset(key) + 1, end);
    CoveredStep(below, key, more, visited, RefOf(ROOT_DIRECTORY));
    forall r, i | r in visited + {ref} && Entry(image, r, i).Some?
      ensures Covered(below + more, visited + {ref}, Entry(image, r, i).value)
    {
      if r in visited {
        CoveredStep(below, key, more, visited, Entry(image, r, i).value);
      } else {
        EntryCovered(image, below, visited + {ref}, ref, end, i);
      }
    }
  }

  lemma WalkCopied(image: seq<u32>, rom: seq<u32>, rom': seq<u32>, visited: set<Ref>, r: Ref, end: nat)
    requires AllCopied(image, rom, visited) && |rom| == |rom'| == |image| == SIZE && r.at < SIZE
    requires end <= SIZE && end == r.at + BlockLength(image[r.at]) + 1
    requires forall i | r.at <= i < end :: rom'[i] == image[i]
    requires forall i | 0 <= i < SIZE && (i < r.at || end <= i) :: rom'[i] == rom[i]
    ensures AllCopied(image, rom', visited + {r})
  {
    forall x | x in visited + {r} ensures Copied(image, rom', x) {
      if x in visited {
        assert Copied(image, rom, x);
      }
    }
  }

  /** With nothing left on the stack, whatever can be reached has been read. */
  lemma {:induction false} ClosedReaches(image: seq<u32>, visited: set<Ref>, path: seq<nat>)
    requires Closed(image, [], visited)
    ensures Follow(image, path).Some? ==> Follow(image, path).value in visited
  {
    hide Entry;
    if path != [] {
      ClosedReaches(image, visited, path[..|path| - 1]);
      var r := Follow(image, path[..|path| - 1]);
      if r.Some? && Entry(image, r.value, path[|path| - 1]).Some? {
        assert Covered([], visited, Entry(image, r.value, path[|path| - 1]).value);
      }
    }
  }

  // ---- the whole walk ------------------------------------------------------

  /** What the walk over an honest device has achieved. */
  ghost predicate Achieved(image: seq<u32>, rom: seq<u32>, keys: seq<u32>, visited: set<Ref>) {
    Closed(image, keys, visited) && AllReachable(image, keys) && AllCopied(image, rom, visited)
  }

  lemma AchievedStart(image: seq<u32>, rom: seq<u32>)
    ensures Achieved(image, rom, [ROOT_DIRECTORY], {})
  {
    RootReachable(image);
    assert RefOf([ROOT_DIRECTORY][0]) == RefOf(ROOT_DIRECTORY);
  }

  lemma AchievedStep(image: seq<u32>, rom: seq<u32>, rom': seq<u32>, below: seq<u32>, key: u32, visited: set<Ref>, end: nat)
    requires Achieved(image, rom, below + [key], visited) && |rom| == |rom'| == |image| == SIZE && Offset(key) < SIZE
    requires end <= SIZE && end == Offset(key) + BlockLength(image[Offset(key)]) + 1
    requires forall i | Offset(key) <= i < end :: rom'[i] == image[i]
    requires forall i | 0 <= i < SIZE && (i < Offset(key) || end <= i) :: rom'[i] == rom[i]
    ensures Achieved(image, rom', below + Pushed(image, RefOf(key).dir, Offset(key) + 1, end), visited + {RefOf(key)})
  {
    hide Closed, AllCopied, Pushed, Reachable, BlockLength, Offset, Kind;
    var keys := below + [key];
    assert keys[|below|] == key && forall k | 0 <= k < |below| :: keys[k] == below[k];
    WalkClosed(image, below, key, visited, end);
    WalkCopied(image, rom, rom', visited, RefOf(key), end);
    WalkReachable(image, below, RefOf(key), end);
  }

  lemma AchievedEnd(image: seq<u32>, rom: seq<u32>, visited: set<Ref>)
    requires Achieved(image, rom, [], visited)
    ensures forall r | Reachable(image, r) :: Copied(image, rom, r)
  {
    hide Copied;
    forall r | Reachable(image, r) ensures Copied(image, rom, r) {
      var path :| Follow(image, path) == Some(r);
      ClosedReaches(image, visited, path);
    }
  }

  lemma TopFits(image: seq<u32>, below: seq<u32>, key: u32)
    requires WellFormed(image) && AllReachable(image, below + [key])
    ensures BlockFits(image, RefOf(key))
  {
    assert RefOf((below + [key])[|below|]) == RefOf(key);
  }

  /** The stack after popping its top, which was found at `src[|src| - 1]`. */
  lemma StackPop(keys: seq<u32>, src: seq<nat>, bound: nat)
    requires StackOk(keys, src, bound) && keys != []
    ensures src != [] && |src| == |keys|
    ensures StackOk(keys[..|keys| - 1], src[..|src| - 1], src[|src| - 1])
    ensures EntryOk(keys[|keys| - 1], src[|src| - 1]) && src[|src| - 1] < bound
  {
  }

  /** What was found in a block weighs less than the reference to it. */
  lemma WeightShrinks(src: seq<nat>, found: seq<nat>, bound: nat, keys: seq<u32>)
    requires src != [] && src[|src| - 1] < SIZE && StackOk(keys, src[..|src| - 1] + found, SIZE)
    requires forall x | x in found :: src[|src| - 1] < x
    ensures Weight(src[..|src| - 1] + found) < Weight(src)
  {
    hide Weight;
    var p, base := src[|src| - 1], |src| - 1;
    var next := src[..base] + found;
    assert next[..base] == src[..base];
    forall k | base <= k < |next| ensures p < next[k] < SIZE {
      assert next[k] == found[k - base] && next[k] in found;
    }
    WeightPop(src);
    WeightBelow(next, base, p, SIZE);
  }

  /** read_config_rom, up to the speed probe: whatever the device replies, the walk ends, its
      stack fits and it never leaves the ROM; and a well-formed image of an honest device is
      reproduced wherever it can be reached. */
  method ReadConfigRom(dev: Device, ghost image: seq<u32>) returns (status: Status, rom: seq<u32>, length: nat)
    ensures !status.OutOfRange? && |rom| == SIZE && length <= SIZE
    ensures forall i | length <= i < SIZE :: rom[i] == 0
    ensures Honest(dev, image) && WellFormed(image) ==>
      && status.Complete? && (forall i | 0 <= i < 5 :: rom[i] == image[i])
      && (forall r | Reachable(image, r) :: Copied(image, rom, r))
  {
    hide Honest, WellFormed, Reachable, Achieved, StackOk, Weight, BlockFits, Pushed, Copied;
    hide BlockLength, Offset, EntryOk, RefOf, AllReachable;
    var buffer := new u32[SIZE](i => 0);
    var stack := new u32[SIZE](i => 0);
    status, length := ReadBusInfo(dev, buffer, image);
    if !status.Complete? {
      return status, buffer[..], length;
    }
    var sp: nat, now: nat := 1, length;
    stack[0] := ROOT_DIRECTORY;
    ghost var src, visited: set<Ref> := [4], {};
    assert stack[..sp] == [ROOT_DIRECTORY];
    AchievedStart(image, buffer[..]);
    StartStack();
    while sp > 0
      invariant sp <= SIZE && 5 <= length <= SIZE && StackOk(stack[..sp], src, SIZE) && |src| == sp
      invariant forall x | length <= x < SIZE :: buffer[x] == 0
      invariant Honest(dev, image) && WellFormed(image) ==>
        Achieved(image, buffer[..], stack[..sp], visited) && forall x | 0 <= x < 5 :: buffer[x] == image[x]
      decreases Weight(src)
    {
      ghost var keys, before := stack[..sp], buffer[..];
      StackPop(keys, src, SIZE);
      sp := sp - 1;
      var key := stack[sp];
      assert keys == stack[..sp] + [key] && keys[..sp] == stack[..sp];
      OffsetBound(key, src[sp]);
      if Offset(key) >= SIZE {
        return OutOfRange, buffer[..], length;
      }
      ghost var p, base := src[sp], src[..sp];
      ghost var fits := Honest(dev, image) && WellFormed(image);
      if fits {
        KeysReachable(image, before, stack[..sp] + [key], visited);
        TopFits(image, stack[..sp], key);
      }
      var ok, end;
      ghost var found;
      ok, now, sp, end, found := ReadBlock(dev, now, key, buffer, stack, sp, base, p, image);
      if !ok {
        return Failed, buffer[..], SIZE;
      }
      WeightShrinks(src, found, SIZE, stack[..sp]);
      if fits {
        AchievedStep(image, before, buffer[..], keys[..|keys| - 1], key, visited, end);
        visited := visited + {RefOf(key)};
      }
      src := base + found;
      StackSize(stack[..sp], src, SIZE);
      if length < end {
        length := end;
      }
    }
    if Honest(dev, image) && WellFormed(image) {
      assert stack[..sp] == [];
      AchievedEnd(image, buffer[..], visited);
    }
    return Complete, buffer[..], length;
  }

  /** The first five quadlets; a zero in the first one means that the device is not ready. */
  method ReadBusInfo(dev: Device, buffer: array<u32>, ghost image: seq<u32>) returns (status: Status, length: nat)
    requires buffer.Length == SIZE && forall x | 0 <= x < SIZE :: buffer[x] == 0
    modifies buffer
    ensures !status.OutOfRange? && length <= 5 && (status.Complete? ==> length == 5)
    ensures status.Busy? <==> dev(0, 0) == Some(0)
    ensures status.Complete? <==> dev(0, 0) != Some(0) && forall x: nat | x < 5 :: dev(x, x).Some?
    ensures forall x | 0 <= x < length :: dev(x, x) == Some(buffer[x])
    ensures forall x | length <= x < SIZE :: buffer[x] == 0
    ensures Honest(dev, image) && WellFormed(image) ==>
      status.Complete? && |image| == SIZE && forall x | 0 <= x < 5 :: buffer[x] == image[x]
  {
    hide Honest, WellFormed;
    HonestImage(dev, image);
    length := 0;
    while length < 5
      invariant length <= 5 && forall x | 0 <= x < length :: dev(x, x) == Some(buffer[x])
      invariant length > 0 ==> buffer[0] != 0
      invariant forall x | length <= x < SIZE :: buffer[x] == 0
      invariant Honest(dev, image) && WellFormed(image) ==> forall x | 0 <= x < length :: buffer[x] == image[x]
    {
      var reply := dev(length, length);
      HonestReads(dev, image, length, length);
      if reply.None? {
        return Failed, length;
      }
      buffer[length] := reply.value;
      if length == 0 && buffer[length] == 0 {
        return Busy, 1;
      }
      length := length + 1;
    }
    status := Complete;
  }

  lemma StackSize(keys: seq<u32>, src: seq<nat>, bound: nat)
    requires StackOk(keys, src, bound)
    ensures |keys| == |src|
  {
  }

  lemma StartStack()
    ensures StackOk([ROOT_DIRECTORY], [4], SIZE)
  {
  }

  lemma HonestImage(dev: Device, image: seq<u32>)
    ensures Honest(dev, image) ==> |image| == SIZE
    ensures WellFormed(image) ==> image[0] != 0
  {
  }

  lemma KeysReachable(image: seq<u32>, rom: seq<u32>, keys: seq<u32>, visited: set<Ref>)
    requires Achieved(image, rom, keys, visited)
    ensures AllReachable(image, keys)
  {
  }
}
