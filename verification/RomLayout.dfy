/** The layout of a card's own configuration ROM: bus information block, root directory and
    the descriptors that units have registered. */
module RomLayout {
  import opened Basics
  import opened Arith
  import R = RomReader

  const NODE_CAPABILITIES: u32 := 0x0c00_83c0
  const BUS_NAME: u32 := 0x3133_3934
  const LIMIT: nat := 256

  /** struct fw_descriptor; `key` occupies the upper eight bits of the root directory entry. */
  datatype Descriptor = Descriptor(immediate: u32, key: u32, data: seq<u32>)

  /** Root directory entries of a descriptor. */
  function EntriesOf(d: Descriptor): (n: nat)
    ensures n > 0
  {
    if d.immediate > 0 then 2 else 1
  }

  function RequiredSpace(d: Descriptor): nat { |d.data| + EntriesOf(d) }

  function Entries(ds: seq<Descriptor>): nat {
    if ds == [] then 0 else EntriesOf(ds[0]) + Entries(ds[1..])
  }

  function Quadlets(ds: seq<Descriptor>): nat {
    if ds == [] then 0 else |ds[0].data| + Quadlets(ds[1..])
  }

  function RomLength(ds: seq<Descriptor>): nat { 7 + Entries(ds) + Quadlets(ds) }

  /** The blocks of a descriptor add up to its length. */
  predicate Tiled(data: seq<u32>, i: nat)
    decreases |data| - i
  {
    i == |data| || (i < |data| && Tiled(data, i + R.BlockLength(data[i]) + 1))
  }

  predicate KeyOk(d: Descriptor) { d.key % 0x100_0000 == 0 }

  ghost predicate Registered(ds: seq<Descriptor>) {
    RomLength(ds) <= LIMIT && forall k | 0 <= k < |ds| :: Tiled(ds[k].data, 0)
  }

  // ---- the image without CRCs ----------------------------------------------

  /** Or of a 32-bit value and an offset. */
  function WithLow(x: u32, y: nat): (r: u32)
    requires y < 0x100_0000
    ensures r / 0x100_0000 == x / 0x100_0000
    ensures x % 0x100_0000 == 0 ==> r == x + y
  {
    PowValues();
    BitOrParts(x, y, 24);
    BitOr(x, y)
  }

  /** Root directory entries from index `i` on, descriptor data starting at `j`. */
  function RootEntries(ds: seq<Descriptor>, i: nat, j: nat): (s: seq<u32>)
    requires i + Entries(ds) <= j && j + Quadlets(ds) <= LIMIT
    ensures |s| == Entries(ds)
  {
    if ds == [] then [] else
    var d := ds[0];
    var at := i + EntriesOf(d) - 1;
    (if d.immediate > 0 then [d.immediate] else []) + [WithLow(d.key, j - at)]
    + RootEntries(ds[1..], at + 1, j + |d.data|)
  }

  function Data(ds: seq<Descriptor>): (s: seq<u32>)
    ensures |s| == Quadlets(ds)
  {
    if ds == [] then [] else ds[0].data + Data(ds[1..])
  }

  /** What the card contributes to the bus information block. */
  datatype Card = Card(linkSpeed: nat, romGeneration: nat, maxReceive: nat, guidHigh: u32, guidLow: u32)

  predicate CardOk(c: Card) { c.linkSpeed < 8 && c.maxReceive < 16 }

  /** Never 0 or 1, and different from one image to the next. */
  function GenerationField(n: nat): nat { n % 14 + 2 }

  function BusOptions(c: Card): u32
    requires CardOk(c)
  {
    c.linkSpeed + 16 * GenerationField(c.romGeneration) + 0x200 + 0x1000 * c.maxReceive + 0xf000_0000
  }

  function BusInfo(c: Card): (s: seq<u32>)
    requires CardOk(c)
    ensures |s| == 5
  {
    [0x0404_0000, BUS_NAME, BusOptions(c), c.guidHigh, c.guidLow]
  }

  function Head(c: Card, ds: seq<Descriptor>): (s: seq<u32>)
    requires CardOk(c) && RomLength(ds) <= LIMIT
    ensures |s| == 7
  {
    BusInfo(c) + [(Entries(ds) + 1) * 0x1_0000, NODE_CAPABILITIES]
  }

  function Raw(c: Card, ds: seq<Descriptor>): (s: seq<u32>)
    requires CardOk(c) && RomLength(ds) <= LIMIT
    ensures |s| == RomLength(ds)
  {
    Head(c, ds) + RootEntries(ds, 7, 7 + Entries(ds)) + Data(ds)
  }

  // ---- where descriptors and their entries are -----------------------------

  lemma PrefixSums(ds: seq<Descriptor>, k: nat)
    requires k <= |ds|
    ensures k == 0 ==> Entries(ds[..k]) == 0 && Quadlets(ds[..k]) == 0
    ensures k > 0 ==> Entries(ds[..k]) == EntriesOf(ds[0]) + Entries(ds[1..][..k - 1])
    ensures k > 0 ==> Quadlets(ds[..k]) == |ds[0].data| + Quadlets(ds[1..][..k - 1])
    ensures ds != [] ==> Entries(ds) == EntriesOf(ds[0]) + Entries(ds[1..])
    ensures ds != [] ==> Quadlets(ds) == |ds[0].data| + Quadlets(ds[1..])
  {
    if k > 0 {
      assert ds[..k][1..] == ds[1..][..k - 1];
    }
  }

  lemma {:induction false} EntriesSplit(ds: seq<Descriptor>, k: nat)
    requires k < |ds|
    ensures Entries(ds[..k + 1]) == Entries(ds[..k]) + EntriesOf(ds[k]) <= Entries(ds)
    ensures Quadlets(ds[..k]) + |ds[k].data| <= Quadlets(ds)
  {
    hide Entries, Quadlets;
    PrefixSums(ds, k);
    PrefixSums(ds, k + 1);
    if k > 0 {
      EntriesSplit(ds[1..], k - 1);
    } else {
      PrefixSums(ds[1..], 0);
    }
  }

  /** Index of the root directory entry that points to descriptor `k`. */
  function EntryIndex(ds: seq<Descriptor>, k: nat): (e: nat)
    requires k < |ds|
    ensures 7 <= e < 7 + Entries(ds)
  {
    EntriesSplit(ds, k);
    7 + Entries(ds[..k]) + EntriesOf(ds[k]) - 1
  }

  /** Index of the first quadlet of descriptor `k`. */
  function DataIndex(ds: seq<Descriptor>, k: nat): (t: nat)
    requires k < |ds|
    ensures 7 + Entries(ds) <= t && t + |ds[k].data| <= RomLength(ds)
  {
    EntriesSplit(ds, k);
    7 + Entries(ds) + Quadlets(ds[..k])
  }

  lemma RootEntriesTail(ds: seq<Descriptor>, i: nat, j: nat)
    requires ds != [] && i + Entries(ds) <= j && j + Quadlets(ds) <= LIMIT
    ensures var n, rest := EntriesOf(ds[0]), RootEntries(ds[1..], i + EntriesOf(ds[0]), j + |ds[0].data|);
      && |RootEntries(ds, i, j)| == n + |rest|
      && forall e | 0 <= e < |rest| :: RootEntries(ds, i, j)[n + e] == rest[e]
  {
    hide WithLow;
  }

  /** The pointer of descriptor `k`: its key with the distance to its data. */
  function Pointer(ds: seq<Descriptor>, i: nat, j: nat, k: nat): u32
    requires k < |ds| && i + Entries(ds) <= j && j + Quadlets(ds) <= LIMIT
  {
    EntriesSplit(ds, k);
    WithLow(ds[k].key, j + Quadlets(ds[..k]) - (i + Entries(ds[..k]) + EntriesOf(ds[k]) - 1))
  }

  lemma FirstEntry(ds: seq<Descriptor>, i: nat, j: nat)
    requires ds != [] && i + Entries(ds) <= j && j + Quadlets(ds) <= LIMIT
    ensures var d, s := ds[0], RootEntries(ds, i, j);
      && |s| >= EntriesOf(d) && (d.immediate > 0 ==> s[0] == d.immediate)
      && s[EntriesOf(d) - 1] == Pointer(ds, i, j, 0)
  {
    assert ds[..0] == [];
  }

  lemma PointerTail(ds: seq<Descriptor>, i: nat, j: nat, k: nat)
    requires 0 < k < |ds| && i + Entries(ds) <= j && j + Quadlets(ds) <= LIMIT
    ensures Entries(ds) == EntriesOf(ds[0]) + Entries(ds[1..]) && Quadlets(ds) == |ds[0].data| + Quadlets(ds[1..])
    ensures Pointer(ds, i, j, k) == Pointer(ds[1..], i + EntriesOf(ds[0]), j + |ds[0].data|, k - 1)
  {
    hide Entries, Quadlets, WithLow, EntriesOf;
    PrefixSums(ds, k);
    EntriesSplit(ds, k);
  }

  lemma {:induction false} EntryAt(ds: seq<Descriptor>, i: nat, j: nat, k: nat)
    requires k < |ds| && i + Entries(ds) <= j && j + Quadlets(ds) <= LIMIT
    ensures Entries(ds[..k]) + EntriesOf(ds[k]) <= Entries(ds)
    ensures RootEntries(ds, i, j)[Entries(ds[..k]) + EntriesOf(ds[k]) - 1] == Pointer(ds, i, j, k)
  {
    hide *;
    EntriesSplit(ds, k);
    PrefixSums(ds, k);
    if k > 0 {
      var rest, n := ds[1..], EntriesOf(ds[0]);
      EntryAt(rest, i + n, j + |ds[0].data|, k - 1);
      RootEntriesTail(ds, i, j);
      PointerTail(ds, i, j, k);
      var e := Entries(rest[..k - 1]) + EntriesOf(ds[k]) - 1;
      assert RootEntries(ds, i, j)[n + e] == RootEntries(rest, i + n, j + |ds[0].data|)[e];
    } else {
      FirstEntry(ds, i, j);
    }
  }

  lemma {:induction false} DataAt(ds: seq<Descriptor>, k: nat, n: nat)
    requires k < |ds| && n < |ds[k].data|
    ensures Quadlets(ds[..k]) + n < Quadlets(ds) && Data(ds)[Quadlets(ds[..k]) + n] == ds[k].data[n]
  {
    hide Entries, Quadlets;
    EntriesSplit(ds, k);
    PrefixSums(ds, k);
    if k > 0 {
      var rest := ds[1..];
      DataAt(rest, k - 1, n);
    }
  }

  /** Each root entry's offset lands on its descriptor, which is there in full. */
  lemma EntryLands(c: Card, ds: seq<Descriptor>, k: nat)
    requires CardOk(c) && Registered(ds) && k < |ds|
    ensures var e, t, raw := EntryIndex(ds, k), DataIndex(ds, k), Raw(c, ds);
      && (KeyOk(ds[k]) ==> raw[e] == ds[k].key + (t - e))
      && raw[t..t + |ds[k].data|] == ds[k].data
  {
    hide Data, RootEntries, Head;
    var e, t, raw := EntryIndex(ds, k), DataIndex(ds, k), Raw(c, ds);
    EntryAt(ds, 7, 7 + Entries(ds), k);
    EntriesSplit(ds, k);
    forall n | 0 <= n < |ds[k].data| ensures raw[t + n] == ds[k].data[n] {
      DataAt(ds, k, n);
    }
  }

  /** An immediate entry, if any, comes right before the pointer. */
  lemma {:induction false} ImmediateAt(ds: seq<Descriptor>, i: nat, j: nat, k: nat)
    requires k < |ds| && i + Entries(ds) <= j && j + Quadlets(ds) <= LIMIT && ds[k].immediate > 0
    ensures Entries(ds[..k]) < Entries(ds) && RootEntries(ds, i, j)[Entries(ds[..k])] == ds[k].immediate
  {
    hide *;
    EntriesSplit(ds, k);
    PrefixSums(ds, k);
    if k > 0 {
      var rest, n := ds[1..], EntriesOf(ds[0]);
      ImmediateAt(rest, i + n, j + |ds[0].data|, k - 1);
      RootEntriesTail(ds, i, j);
      var e := Entries(rest[..k - 1]);
      assert RootEntries(ds, i, j)[n + e] == RootEntries(rest, i + n, j + |ds[0].data|)[e];
    } else {
      FirstEntry(ds, i, j);
    }
  }

  // ---- the CRC pass --------------------------------------------------------

  type u16 = x: int | 0 <= x < 0x1_0000

  /** The CRC is any function of a block's contents. */
  type Crc = seq<u32> -> u16

  function CrcLength(q: u32): nat { q / 0x1_0000 % 0x100 }

  function SealHeader(q: u32, crc: u16): (r: u32)
    ensures r / 0x1_0000 == q / 0x1_0000
    ensures q % 0x1_0000 == 0 ==> r == q + crc
  {
    PowValues();
    BitOrParts(q, crc, 16);
    BitOr(q, crc)
  }

  /** From `i` on, the lengths in the headers lead from header to header and to the end. */
  predicate Stepped(rom: seq<u32>, i: nat)
    decreases |rom| - i
  {
    i == |rom| || (i < |rom| && i + CrcLength(rom[i]) < |rom| && Stepped(rom, i + CrcLength(rom[i]) + 1))
  }

  /** The headers that are met from `i` on. */
  predicate IsHeader(rom: seq<u32>, i: nat, h: nat)
    decreases |rom| - i
  {
    i < |rom| && (h == i || IsHeader(rom, i + CrcLength(rom[i]) + 1, h))
  }

  lemma {:induction false} SteppedSame(a: seq<u32>, b: seq<u32>, i: nat, h: nat)
    requires |a| == |b| && forall x | i <= x < |a| :: a[x] == b[x]
    ensures Stepped(a, i) == Stepped(b, i) && IsHeader(a, i, h) == IsHeader(b, i, h)
    decreases |a| - i
  {
    if i < |a| && i + CrcLength(a[i]) < |a| {
      SteppedSame(a, b, i + CrcLength(a[i]) + 1, h);
    }
  }

  lemma {:induction false} HeaderRange(rom: seq<u32>, i: nat, h: nat)
    requires Stepped(rom, i) && IsHeader(rom, i, h)
    ensures i <= h < |rom| && h + CrcLength(rom[h]) < |rom|
    decreases |rom| - i
  {
    if h != i {
      HeaderRange(rom, i + CrcLength(rom[i]) + 1, h);
    }
  }

  /** fw_compute_block_crc on the block at `i`. */
  function SealBlock(rom: seq<u32>, i: nat, crc: Crc): (r: seq<u32>)
    requires i < |rom| && i + CrcLength(rom[i]) < |rom|
    ensures |r| == |rom|
  {
    rom[i := SealHeader(rom[i], crc(rom[i + 1..i + 1 + CrcLength(rom[i])]))]
  }

  function Seal(rom: seq<u32>, i: nat, crc: Crc): (r: seq<u32>)
    requires Stepped(rom, i)
    ensures |r| == |rom|
    decreases |rom| - i
  {
    if i == |rom| then rom else
    var next := i + CrcLength(rom[i]) + 1;
    SteppedSame(rom, SealBlock(rom, i, crc), next, 0);
    Seal(SealBlock(rom, i, crc), next, crc)
  }

  /** The pass seals exactly the headers, each with the CRC of its own block. */
  lemma {:induction false} SealIs(rom: seq<u32>, i: nat, crc: Crc, x: nat)
    requires Stepped(rom, i) && x < |rom|
    ensures IsHeader(rom, i, x) ==> x + CrcLength(rom[x]) < |rom| && Seal(rom, i, crc)[x] == SealBlock(rom, x, crc)[x]
    ensures !IsHeader(rom, i, x) ==> Seal(rom, i, crc)[x] == rom[x]
    decreases |rom| - i
  {
    hide SealHeader, CrcLength;
    if i < |rom| {
      var next, r := i + CrcLength(rom[i]) + 1, SealBlock(rom, i, crc);
      SteppedSame(rom, r, next, x);
      SealIs(r, next, crc, x);
      if IsHeader(rom, next, x) {
        HeaderRange(rom, next, x);
        assert r[x + 1..x + 1 + CrcLength(r[x])] == rom[x + 1..x + 1 + CrcLength(rom[x])];
      } else if x == i {
        assert !IsHeader(r, next, i);
      }
    }
  }

  // ---- the generated image is stepped --------------------------------------

  lemma {:induction false} TiledStepped(rom: seq<u32>, at: nat, data: seq<u32>, i: nat)
    requires i <= |data| < 0x100 && at + |data| <= |rom| && rom[at..at + |data|] == data
    requires Tiled(data, i) && Stepped(rom, at + |data|)
    ensures Stepped(rom, at + i)
    decreases |data| - i
  {
    if i < |data| {
      var n := R.BlockLength(data[i]);
      TiledBound(data, i + n + 1);
      assert rom[at + i] == data[i];
      TiledStepped(rom, at, data, i + n + 1);
    }
  }

  lemma TiledBound(data: seq<u32>, i: nat)
    requires Tiled(data, i)
    ensures i <= |data|
  {
  }

  lemma {:induction false} DataStepped(rom: seq<u32>, ds: seq<Descriptor>, at: nat)
    requires at + Quadlets(ds) == |rom| && rom[at..] == Data(ds)
    requires forall k | 0 <= k < |ds| :: Tiled(ds[k].data, 0) && |ds[k].data| < 0x100
    ensures Stepped(rom, at)
    decreases ds
  {
    hide Tiled, Stepped;
    if ds == [] {
      SteppedEnd(rom);
    } else {
      var next := at + |ds[0].data|;
      assert rom[next..] == rom[at..][|ds[0].data|..];
      DataStepped(rom, ds[1..], next);
      assert rom[at..next] == rom[at..][..|ds[0].data|];
      TiledStepped(rom, at, ds[0].data, 0);
    }
  }

  lemma SteppedEnd(rom: seq<u32>)
    ensures Stepped(rom, |rom|)
  {
  }

  lemma {:induction false} DataFits(ds: seq<Descriptor>, k: nat)
    requires k < |ds|
    ensures |ds[k].data| <= Quadlets(ds)
  {
    if k > 0 {
      DataFits(ds[1..], k - 1);
    }
  }

  /** The headers of the generated image: bus information, root directory, descriptor blocks. */
  lemma RawStepped(c: Card, ds: seq<Descriptor>)
    requires CardOk(c) && Registered(ds)
    ensures Stepped(Raw(c, ds), 0)
    ensures IsHeader(Raw(c, ds), 0, 0) && IsHeader(Raw(c, ds), 0, 5)
    ensures Raw(c, ds)[5] == (Entries(ds) + 1) * 0x1_0000
    ensures forall h: nat | IsHeader(Raw(c, ds), 0, h) :: h == 0 || h == 5 || h >= 7 + Entries(ds)
  {
    hide Tiled, Data, RootEntries;
    var rom, at := Raw(c, ds), 7 + Entries(ds);
    forall k | 0 <= k < |ds| ensures |ds[k].data| < 0x100 {
      DataFits(ds, k);
    }
    assert rom[at..] == Data(ds);
    DataStepped(rom, ds, at);
    assert rom[0] == 0x0404_0000 && CrcLength(rom[0]) == 4;
    assert rom[5] == (Entries(ds) + 1) * 0x1_0000 && CrcLength(rom[5]) == Entries(ds) + 1;
    assert Stepped(rom, 5);
    forall h: nat | IsHeader(rom, 0, h) ensures h == 0 || h == 5 || h >= at {
      if h != 0 && h != 5 {
        assert IsHeader(rom, 5, h) && IsHeader(rom, at, h);
        HeaderRange(rom, at, h);
      }
    }
  }

  /** The finished image. */
  function Rom(c: Card, ds: seq<Descriptor>, crc: Crc): (s: seq<u32>)
    requires CardOk(c) && Registered(ds)
    ensures |s| == RomLength(ds)
  {
    RawStepped(c, ds);
    Seal(Raw(c, ds), 0, crc)
  }

  // ---- a reader of the image -----------------------------------------------

  lemma {:induction false} HeaderGap(rom: seq<u32>, i: nat, h: nat, x: nat)
    requires Stepped(rom, i) && h < |rom| && IsHeader(rom, i, h) && h < x <= h + CrcLength(rom[h])
    ensures !IsHeader(rom, i, x)
    decreases |rom| - i
  {
    var next := i + CrcLength(rom[i]) + 1;
    if h != i {
      HeaderRange(rom, next, h);
      HeaderGap(rom, next, h, x);
    } else if IsHeader(rom, next, x) {
      HeaderRange(rom, next, x);
    }
  }

  lemma {:induction false} TiledHeader(rom: seq<u32>, at: nat, data: seq<u32>, i: nat, h: nat)
    requires i <= |data| < 0x100 && at + |data| <= |rom| && rom[at..at + |data|] == data
    requires Tiled(data, i) && IsHeader(rom, at + |data|, h)
    ensures IsHeader(rom, at + i, h)
    decreases |data| - i
  {
    if i < |data| {
      var n := R.BlockLength(data[i]);
      TiledBound(data, i + n + 1);
      assert rom[at + i] == data[i];
      TiledHeader(rom, at, data, i + n + 1, h);
    }
  }

  /** Every descriptor starts with a header. */
  lemma {:induction false} DataHeader(rom: seq<u32>, ds: seq<Descriptor>, at: nat, k: nat)
    requires k < |ds| && ds[k].data != [] && at + Quadlets(ds) == |rom| && rom[at..] == Data(ds)
    requires forall k | 0 <= k < |ds| :: Tiled(ds[k].data, 0) && |ds[k].data| < 0x100
    ensures IsHeader(rom, at, at + Quadlets(ds[..k]))
    decreases k
  {
    hide Tiled;
    PrefixSums(ds, k);
    if k == 0 {
      assert at < |rom|;
    } else {
      var next := at + |ds[0].data|;
      assert rom[next..] == rom[at..][|ds[0].data|..];
      assert rom[at..next] == rom[at..][..|ds[0].data|];
      DataHeader(rom, ds[1..], next, k - 1);
      hide IsHeader, Data, Entries, Quadlets;
      TiledHeader(rom, at, ds[0].data, 0, next + Quadlets(ds[1..][..k - 1]));
    }
  }

  /** The root directory of the image has an entry per descriptor and nothing else. */
  lemma {:induction false} EntryOwner(ds: seq<Descriptor>, e: nat) returns (k: nat)
    requires e < Entries(ds)
    ensures k < |ds| && (e == Entries(ds[..k]) + EntriesOf(ds[k]) - 1
      || (ds[k].immediate > 0 && e == Entries(ds[..k])))
  {
    if e < EntriesOf(ds[0]) {
      k := 0;
      PrefixSums(ds, 0);
    } else {
      k := EntryOwner(ds[1..], e - EntriesOf(ds[0]));
      k := k + 1;
      PrefixSums(ds, k);
    }
  }

  /** Keys keep to the upper eight bits, immediate entries are of an immediate type, and nothing
      registered is empty. */
  predicate Plain(ds: seq<Descriptor>) {
    forall k | 0 <= k < |ds| :: KeyOk(ds[k]) && ds[k].immediate < 0x8000_0000 && ds[k].data != []
  }

  function Image(c: Card, ds: seq<Descriptor>, crc: Crc): (s: seq<u32>)
    requires CardOk(c) && Registered(ds)
    ensures |s| == LIMIT
  {
    var rom := Rom(c, ds, crc);
    rom + seq(LIMIT - |rom|, i => 0)
  }

  /** Outside headers the image is the raw layout. */
  lemma ImageAt(c: Card, ds: seq<Descriptor>, crc: Crc, x: nat)
    requires CardOk(c) && Registered(ds) && x < RomLength(ds)
    ensures Stepped(Raw(c, ds), 0)
    ensures var raw, image := Raw(c, ds), Image(c, ds, crc);
      && (!IsHeader(raw, 0, x) ==> image[x] == raw[x])
      && (IsHeader(raw, 0, x) ==> x + CrcLength(raw[x]) < |raw| && image[x] == SealBlock(raw, x, crc)[x])
      && image[x] / 0x1_0000 == raw[x] / 0x1_0000
  {
    hide Stepped, IsHeader, Raw;
    RawStepped(c, ds);
    SealIs(Raw(c, ds), 0, crc, x);
  }

  lemma RootEntryAt(c: Card, ds: seq<Descriptor>, crc: Crc, k: nat)
    requires CardOk(c) && Registered(ds) && k < |ds| && KeyOk(ds[k])
    ensures Image(c, ds, crc)[EntryIndex(ds, k)] == ds[k].key + (DataIndex(ds, k) - EntryIndex(ds, k))
  {
    hide Image, Raw, IsHeader, Stepped, EntryIndex, DataIndex;
    EntryLands(c, ds, k);
    RawStepped(c, ds);
    ImageAt(c, ds, crc, EntryIndex(ds, k));
  }

  lemma ImmediateEntryAt(c: Card, ds: seq<Descriptor>, crc: Crc, k: nat)
    requires CardOk(c) && Registered(ds) && k < |ds| && ds[k].immediate > 0
    ensures 7 + Entries(ds[..k]) < 7 + Entries(ds) && Image(c, ds, crc)[7 + Entries(ds[..k])] == ds[k].immediate
  {
    hide Image, IsHeader, Stepped, Head, RootEntries, Data, Entries, Quadlets;
    ImmediateAt(ds, 7, 7 + Entries(ds), k);
    RawStepped(c, ds);
    assert Raw(c, ds)[7 + Entries(ds[..k])] == ds[k].immediate;
    ImageAt(c, ds, crc, 7 + Entries(ds[..k]));
  }

  lemma RawHead(c: Card, ds: seq<Descriptor>)
    requires CardOk(c) && Registered(ds)
    ensures var raw := Raw(c, ds);
      raw[0] == 0x0404_0000 && raw[5] == (Entries(ds) + 1) * 0x1_0000 && raw[6] == NODE_CAPABILITIES
  {
    hide Tiled, Data, RootEntries, Entries, Quadlets;
  }

  lemma RootHeader(c: Card, ds: seq<Descriptor>, crc: Crc)
    requires CardOk(c) && Registered(ds)
    ensures var image := Image(c, ds, crc);
      && image[0] != 0 && R.BlockLength(image[5]) == Entries(ds) + 1 && image[6] == NODE_CAPABILITIES
  {
    hide IsHeader, Stepped, Raw, Image;
    RawStepped(c, ds);
    RawHead(c, ds);
    ImageAt(c, ds, crc, 0);
    ImageAt(c, ds, crc, 5);
    ImageAt(c, ds, crc, 6);
  }

  /** The root directory carries the CRC of its entries. */
  lemma RootCrc(c: Card, ds: seq<Descriptor>, crc: Crc)
    requires CardOk(c) && Registered(ds)
    ensures var image := Image(c, ds, crc); image[5] % 0x1_0000 == crc(image[6..7 + Entries(ds)])
  {
    hide IsHeader, Stepped, Raw, Image;
    var raw, image := Raw(c, ds), Image(c, ds, crc);
    RawStepped(c, ds);
    RawHead(c, ds);
    ImageAt(c, ds, crc, 5);
    assert CrcLength(raw[5]) == Entries(ds) + 1;
    forall x | 6 <= x < 7 + Entries(ds) ensures image[x] == raw[x] {
      ImageAt(c, ds, crc, x);
    }
    assert image[6..7 + Entries(ds)] == raw[6..7 + Entries(ds)];
  }

  /** All pointers of the root directory lead to descriptors inside the ROM. */
  lemma RootFits(c: Card, ds: seq<Descriptor>, crc: Crc)
    requires CardOk(c) && Registered(ds) && Plain(ds)
    ensures R.BlockFits(Image(c, ds, crc), R.RefOf(R.ROOT_DIRECTORY))
  {
    hide Image, Entries, EntryIndex, DataIndex;
    var image := Image(c, ds, crc);
    RootHeader(c, ds, crc);
    forall i | 5 < i <= 6 + Entries(ds) && R.IsPointer(image[i]) ensures R.PointsInside(i, image[i]) {
      if i > 6 {
        RootPointer(c, ds, crc, i);
      }
    }
  }

  lemma RootPointer(c: Card, ds: seq<Descriptor>, crc: Crc, i: nat)
    requires CardOk(c) && Registered(ds) && Plain(ds) && 7 <= i < 7 + Entries(ds)
    ensures R.IsPointer(Image(c, ds, crc)[i]) ==> R.PointsInside(i, Image(c, ds, crc)[i])
  {
    hide Image, DataIndex;
    var k := EntryOwner(ds, i - 7);
    if i == EntryIndex(ds, k) {
      RootEntryAt(c, ds, crc, k);
      LowBits(ds[k].key, DataIndex(ds, k) - i);
    } else {
      ImmediateEntryAt(c, ds, crc, k);
    }
  }

  lemma LowBits(key: u32, v: nat)
    requires key % 0x100_0000 == 0 && v < 0x100_0000
    ensures (key + v) % 0x100_0000 == v && (key + v) / 0x4000_0000 == key / 0x4000_0000
  {
  }

  /** A descriptor whose key is a leaf or directory key can be reached through its entry. */
  lemma DescriptorReachable(c: Card, ds: seq<Descriptor>, crc: Crc, k: nat)
    requires CardOk(c) && Registered(ds) && Plain(ds) && k < |ds| && R.Kind(ds[k].key) >= 2
    ensures R.Reachable(Image(c, ds, crc), R.Ref(DataIndex(ds, k), R.Kind(ds[k].key) == 3))
  {
    hide Image, DataIndex, EntryIndex, R.Reference, R.Follow;
    var image, e, t := Image(c, ds, crc), EntryIndex(ds, k), DataIndex(ds, k);
    RootHeader(c, ds, crc);
    RootEntryAt(c, ds, crc, k);
    LowBits(ds[k].key, t - e);
    R.RootReachable(image);
    assert R.Entry(image, R.RefOf(R.ROOT_DIRECTORY), e) == Some(R.Ref(t, R.Kind(ds[k].key) == 3));
    R.EntryReachable(image, R.RefOf(R.ROOT_DIRECTORY), e);
  }

  // ---- blocks inside a descriptor ------------------------------------------

  /** The blocks of a descriptor start where the lengths lead to. */
  predicate BlockStart(data: seq<u32>, i: nat, h: nat)
    decreases |data| - i
  {
    i < |data| && (h == i || BlockStart(data, i + R.BlockLength(data[i]) + 1, h))
  }

  /** What entry `i` of directory block `r` of a descriptor refers to, within the descriptor. */
  function InnerEntry(data: seq<u32>, r: R.Ref, i: nat): Option<R.Ref> {
    if r.dir && r.at < i < |data| && i <= r.at + R.BlockLength(data[r.at]) && R.IsPointer(data[i])
    then Some(R.Ref(i + R.Offset(data[i]), R.Kind(data[i]) == 3)) else None
  }

  function InnerFollow(d: Descriptor, path: seq<nat>): Option<R.Ref> {
    if path == [] then Some(R.Ref(0, R.Kind(d.key) == 3)) else
    var r := InnerFollow(d, path[..|path| - 1]);
    if r.None? then None else InnerEntry(d.data, r.value, path[|path| - 1])
  }

  /** A block that is reached from the first one of the descriptor. */
  ghost predicate InnerReachable(d: Descriptor, r: R.Ref) { exists path :: InnerFollow(d, path) == Some(r) }

  /** Every pointer that a reader follows inside the descriptor leads to one of its blocks. */
  ghost predicate SelfContained(d: Descriptor) {
    forall r, i: nat | InnerReachable(d, r) && InnerEntry(d.data, r, i).Some? ::
      BlockStart(d.data, 0, InnerEntry(d.data, r, i).value.at)
  }

  ghost predicate AllSelfContained(ds: seq<Descriptor>) { forall k | 0 <= k < |ds| :: SelfContained(ds[k]) }

  lemma {:induction false} InnerIsBlock(d: Descriptor, path: seq<nat>)
    requires SelfContained(d) && d.data != []
    ensures InnerFollow(d, path).Some? ==> BlockStart(d.data, 0, InnerFollow(d, path).value.at)
  {
    hide InnerEntry;
    if path != [] && InnerFollow(d, path).Some? {
      var r := InnerFollow(d, path[..|path| - 1]).value;
      assert InnerReachable(d, r);
    }
  }

  lemma {:induction false} BlockStartBound(data: seq<u32>, i: nat, h: nat)
    requires Tiled(data, i) && BlockStart(data, i, h)
    ensures i <= h < |data| && h + R.BlockLength(data[h]) < |data|
    decreases |data| - i
  {
    TiledBound(data, i + R.BlockLength(data[i]) + 1);
    if h != i {
      BlockStartBound(data, i + R.BlockLength(data[i]) + 1, h);
    }
  }

  lemma {:induction false} BlockStartHeader(rom: seq<u32>, at: nat, data: seq<u32>, i: nat, h: nat)
    requires |data| < 0x100 && at + |data| <= |rom| && rom[at..at + |data|] == data
    requires Tiled(data, i) && BlockStart(data, i, h)
    ensures IsHeader(rom, at + i, at + h)
    decreases |data| - i
  {
    TiledBound(data, i + R.BlockLength(data[i]) + 1);
    assert rom[at + i] == data[i];
    if h != i {
      BlockStartHeader(rom, at, data, i + R.BlockLength(data[i]) + 1, h);
    }
  }

  lemma {:induction false} HeaderTrans(rom: seq<u32>, i: nat, h: nat, x: nat)
    requires IsHeader(rom, i, h) && IsHeader(rom, h, x)
    ensures IsHeader(rom, i, x)
    decreases |rom| - i
  {
    if h != i {
      HeaderTrans(rom, i + CrcLength(rom[i]) + 1, h, x);
    }
  }

  lemma StartsWithHeader(c: Card, ds: seq<Descriptor>, k: nat)
    requires CardOk(c) && Registered(ds) && k < |ds| && ds[k].data != []
    ensures IsHeader(Raw(c, ds), 0, DataIndex(ds, k))
  {
    hide Tiled, Data, RootEntries;
    var rom, at := Raw(c, ds), 7 + Entries(ds);
    forall k | 0 <= k < |ds| ensures |ds[k].data| < 0x100 {
      DataFits(ds, k);
    }
    assert rom[at..] == Data(ds);
    DataHeader(rom, ds, at, k);
    assert rom[0] == 0x0404_0000 && CrcLength(rom[0]) == 4;
    assert rom[5] == (Entries(ds) + 1) * 0x1_0000 && CrcLength(rom[5]) == Entries(ds) + 1;
    assert IsHeader(rom, 5, DataIndex(ds, k));
  }

  /** A block of a descriptor is in the image, with its length and its contents. */
  lemma BlockInImage(c: Card, ds: seq<Descriptor>, crc: Crc, k: nat, h: nat, n: nat)
    requires CardOk(c) && Registered(ds) && k < |ds| && BlockStart(ds[k].data, 0, h)
    requires h < |ds[k].data| && n <= R.BlockLength(ds[k].data[h])
    ensures h + n < |ds[k].data|
    ensures var t, image := DataIndex(ds, k), Image(c, ds, crc);
      && R.BlockLength(image[t + h]) == R.BlockLength(ds[k].data[h])
      && (n > 0 ==> image[t + h + n] == ds[k].data[h + n])
  {
    hide Image, IsHeader, Stepped, DataIndex, Raw, BlockStart, Tiled;
    var t, raw, data := DataIndex(ds, k), Raw(c, ds), ds[k].data;
    BlockStartBound(data, 0, h);
    DataFits(ds, k);
    EntryLands(c, ds, k);
    assert raw[t + h] == data[h] && raw[t + h + n] == data[h + n];
    RawStepped(c, ds);
    StartsWithHeader(c, ds, k);
    BlockStartHeader(raw, t, data, 0, h);
    HeaderTrans(raw, 0, t, t + h);
    ImageAt(c, ds, crc, t + h);
    if n > 0 {
      HeaderGap(raw, 0, t + h, t + h + n);
      ImageAt(c, ds, crc, t + h + n);
    }
  }

  // ---- every block that a reader of the image reaches ----------------------

  /** Block `r` of the image is block `q` of descriptor `k`. */
  ghost predicate Belongs(ds: seq<Descriptor>, r: R.Ref, k: nat, q: R.Ref) {
    k < |ds| && InnerReachable(ds[k], q) && r == R.Ref(DataIndex(ds, k) + q.at, q.dir)
  }

  lemma InnerStart(d: Descriptor)
    ensures InnerReachable(d, R.Ref(0, R.Kind(d.key) == 3))
  {
    assert InnerFollow(d, []) == Some(R.Ref(0, R.Kind(d.key) == 3));
  }

  lemma InnerNext(d: Descriptor, q: R.Ref, i: nat)
    requires InnerReachable(d, q) && InnerEntry(d.data, q, i).Some?
    ensures InnerReachable(d, InnerEntry(d.data, q, i).value)
  {
    var path :| InnerFollow(d, path) == Some(q);
    var longer := path + [i];
    assert longer[..|path|] == path;
    assert InnerFollow(d, longer) == InnerEntry(d.data, q, i);
  }

  lemma InnerBlock(d: Descriptor, q: R.Ref)
    requires SelfContained(d) && d.data != [] && InnerReachable(d, q) && Tiled(d.data, 0)
    ensures BlockStart(d.data, 0, q.at) && q.at < |d.data| && q.at + R.BlockLength(d.data[q.at]) < |d.data|
  {
    hide BlockStart, Tiled, SelfContained;
    var path :| InnerFollow(d, path) == Some(q);
    InnerIsBlock(d, path);
    BlockStartBound(d.data, 0, q.at);
  }

  /** An entry of the root directory leads to the first block of a descriptor. */
  lemma RootEntryBelongs(c: Card, ds: seq<Descriptor>, crc: Crc, i: nat) returns (k: nat)
    requires CardOk(c) && Registered(ds) && Plain(ds)
    requires R.Entry(Image(c, ds, crc), R.RefOf(R.ROOT_DIRECTORY), i).Some?
    ensures k < |ds|
      && Belongs(ds, R.Entry(Image(c, ds, crc), R.RefOf(R.ROOT_DIRECTORY), i).value, k, R.Ref(0, R.Kind(ds[k].key) == 3))
  {
    hide Image, DataIndex, EntryIndex, InnerReachable;
    RootHeader(c, ds, crc);
    RootRange(c, ds, crc, i);
    k := EntryOwner(ds, i - 7);
    EntryIndexIs(ds, k);
    if i == EntryIndex(ds, k) {
      RootEntryAt(c, ds, crc, k);
      LowBits(ds[k].key, DataIndex(ds, k) - i);
    } else {
      ImmediateEntryAt(c, ds, crc, k);
    }
    InnerStart(ds[k]);
  }

  lemma EntryIndexIs(ds: seq<Descriptor>, k: nat)
    requires k < |ds|
    ensures EntryIndex(ds, k) == 7 + Entries(ds[..k]) + EntriesOf(ds[k]) - 1
  {
  }

  lemma RootRange(c: Card, ds: seq<Descriptor>, crc: Crc, i: nat)
    requires CardOk(c) && Registered(ds) && R.Entry(Image(c, ds, crc), R.RefOf(R.ROOT_DIRECTORY), i).Some?
    ensures 7 <= i < 7 + Entries(ds)
  {
    hide Image;
    RootHeader(c, ds, crc);
  }

  /** An entry of a descriptor's block leads to a block of the same descriptor. */
  lemma InnerEntryBelongs(c: Card, ds: seq<Descriptor>, crc: Crc, r: R.Ref, k: nat, q: R.Ref, i: nat)
    requires CardOk(c) && Registered(ds) && Plain(ds) && AllSelfContained(ds) && Belongs(ds, r, k, q)
    requires R.Entry(Image(c, ds, crc), r, i).Some?
    ensures exists q' :: Belongs(ds, R.Entry(Image(c, ds, crc), r, i).value, k, q')
  {
    hide Image, DataIndex, InnerReachable, BlockStart, Tiled, SelfContained;
    var d, t, image := ds[k], DataIndex(ds, k), Image(c, ds, crc);
    InnerBlock(d, q);
    BlockInImage(c, ds, crc, k, q.at, 0);
    BlockInImage(c, ds, crc, k, q.at, i - t - q.at);
    assert image[i] == d.data[i - t];
    InnerNext(d, q, i - t);
    assert Belongs(ds, R.Entry(image, r, i).value, k, InnerEntry(d.data, q, i - t).value);
  }

  lemma {:induction false} PathBelongs(c: Card, ds: seq<Descriptor>, crc: Crc, path: seq<nat>)
    requires CardOk(c) && Registered(ds) && Plain(ds) && AllSelfContained(ds) && path != []
    ensures R.Follow(Image(c, ds, crc), path).Some? ==>
      exists k, q :: Belongs(ds, R.Follow(Image(c, ds, crc), path).value, k, q)
  {
    hide Image, Belongs, R.Entry, Plain, AllSelfContained, Registered;
    var image, front, i := Image(c, ds, crc), path[..|path| - 1], path[|path| - 1];
    if R.Follow(image, path).Some? {
      if front == [] {
        RootPath(image);
        var k := RootEntryBelongs(c, ds, crc, i);
      } else {
        PathBelongs(c, ds, crc, front);
        var r := R.Follow(image, front).value;
        var k, q :| Belongs(ds, r, k, q);
        InnerEntryBelongs(c, ds, crc, r, k, q, i);
      }
    }
  }

  lemma InnerPointer(c: Card, ds: seq<Descriptor>, crc: Crc, k: nat, q: R.Ref, i: nat)
    requires CardOk(c) && Registered(ds) && Plain(ds) && AllSelfContained(ds) && k < |ds| && InnerReachable(ds[k], q)
    requires q.dir && q.at < |ds[k].data| && q.at < i <= q.at + R.BlockLength(ds[k].data[q.at])
    ensures DataIndex(ds, k) + i < LIMIT
    ensures var x := Image(c, ds, crc)[DataIndex(ds, k) + i];
      R.IsPointer(x) ==> R.PointsInside(DataIndex(ds, k) + i, x)
  {
    hide Image, InnerReachable, BlockStart, Tiled;
    var d := ds[k];
    InnerBlock(d, q);
    BlockInImage(c, ds, crc, k, q.at, i - q.at);
    if R.IsPointer(d.data[i]) {
      assert SelfContained(d) && InnerEntry(d.data, q, i).Some?;
      BlockStartBound(d.data, 0, i + R.Offset(d.data[i]));
    }
  }

  lemma BelongsFits(c: Card, ds: seq<Descriptor>, crc: Crc, r: R.Ref, k: nat, q: R.Ref)
    requires CardOk(c) && Registered(ds) && Plain(ds) && AllSelfContained(ds) && Belongs(ds, r, k, q)
    ensures R.BlockFits(Image(c, ds, crc), r)
  {
    hide Image, DataIndex, InnerReachable, BlockStart, Tiled, SelfContained;
    var d, t, image := ds[k], DataIndex(ds, k), Image(c, ds, crc);
    InnerBlock(d, q);
    BlockInImage(c, ds, crc, k, q.at, 0);
    forall i | r.at < i <= r.at + R.BlockLength(image[r.at]) && r.dir && R.IsPointer(image[i])
      ensures R.PointsInside(i, image[i])
    {
      InnerPointer(c, ds, crc, k, q, i - t);
    }
  }

  /** Whatever is registered, if the pointers inside each descriptor stay on its blocks, the
      generated image is well formed for the reader. */
  lemma GeneratedReadable(c: Card, ds: seq<Descriptor>, crc: Crc)
    requires CardOk(c) && Registered(ds) && Plain(ds) && AllSelfContained(ds)
    ensures R.WellFormed(Image(c, ds, crc))
  {
    hide Image, R.BlockFits, R.Follow, Belongs, AllSelfContained, Plain, Registered;
    var image := Image(c, ds, crc);
    RootHeader(c, ds, crc);
    RootFits(c, ds, crc);
    forall r | R.Reachable(image, r) ensures R.BlockFits(image, r) {
      var path :| R.Follow(image, path) == Some(r);
      if path == [] {
        RootPath(image);
      } else {
        PathBelongs(c, ds, crc, path);
        var k, q :| Belongs(ds, r, k, q);
        BelongsFits(c, ds, crc, r, k, q);
      }
    }
  }

  lemma RootPath(image: seq<u32>)
    ensures R.Follow(image, []) == Some(R.RefOf(R.ROOT_DIRECTORY))
  {
  }

  /** Blocks inside a descriptor are reached in the image, by its entry and then as before. */
  lemma {:induction false} InnerReached(c: Card, ds: seq<Descriptor>, crc: Crc, k: nat, path: seq<nat>)
    requires CardOk(c) && Registered(ds) && Plain(ds) && AllSelfContained(ds) && k < |ds| && R.Kind(ds[k].key) >= 2
    ensures var q := InnerFollow(ds[k], path);
      q.Some? ==> R.Reachable(Image(c, ds, crc), R.Ref(DataIndex(ds, k) + q.value.at, q.value.dir))
  {
    hide Image, DataIndex, R.Reachable, BlockStart, Tiled, R.Reference;
    var d, image, t := ds[k], Image(c, ds, crc), DataIndex(ds, k);
    if path == [] {
      DescriptorReachable(c, ds, crc, k);
    } else if InnerFollow(d, path).Some? {
      var front, i := path[..|path| - 1], path[|path| - 1];
      InnerReached(c, ds, crc, k, front);
      var q := InnerFollow(d, front).value;
      assert InnerReachable(d, q);
      InnerBlock(d, q);
      BlockInImage(c, ds, crc, k, q.at, i - q.at);
      InnerPointer(c, ds, crc, k, q, i);
      var r := R.Ref(t + q.at, q.dir);
      assert R.Entry(image, r, t + i) == Some(R.Ref(t + InnerFollow(d, path).value.at, InnerFollow(d, path).value.dir));
      R.EntryReachable(image, r, t + i);
    }
  }

  /** Generator and reader together: a copy of everything reachable holds every block that the
      pointers of a registered descriptor lead to, with its length and its contents. */
  lemma ReadBack(c: Card, ds: seq<Descriptor>, crc: Crc, rom: seq<u32>, k: nat, q: R.Ref, n: nat)
    requires CardOk(c) && Registered(ds) && Plain(ds) && AllSelfContained(ds) && k < |ds| && R.Kind(ds[k].key) >= 2
    requires forall r | R.Reachable(Image(c, ds, crc), r) :: R.Copied(Image(c, ds, crc), rom, r)
    requires InnerReachable(ds[k], q)
    ensures q.at < |ds[k].data| && DataIndex(ds, k) + q.at < |rom|
    ensures R.BlockLength(rom[DataIndex(ds, k) + q.at]) == R.BlockLength(ds[k].data[q.at])
    ensures 0 < n <= R.BlockLength(ds[k].data[q.at]) ==>
      && q.at + n < |ds[k].data| && DataIndex(ds, k) + q.at + n < |rom|
      && rom[DataIndex(ds, k) + q.at + n] == ds[k].data[q.at + n]
  {
    hide Image, IsHeader, Stepped, DataIndex, Raw, R.Reachable, BlockStart, Tiled, SelfContained;
    var image, t := Image(c, ds, crc), DataIndex(ds, k);
    var path :| InnerFollow(ds[k], path) == Some(q);
    InnerReached(c, ds, crc, k, path);
    InnerBlock(ds[k], q);
    BlockInImage(c, ds, crc, k, q.at, 0);
    var r := R.Ref(t + q.at, q.dir);
    assert R.Copied(image, rom, r);
    assert R.InBlock(image, r, t + q.at);
    if 0 < n <= R.BlockLength(ds[k].data[q.at]) {
      BlockInImage(c, ds, crc, k, q.at, n);
      assert R.InBlock(image, r, t + q.at + n);
    }
  }
}
