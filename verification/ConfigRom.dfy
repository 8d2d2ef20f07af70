/** The registry of descriptors and the generator of configuration ROM images. */
module ConfigRom {
  import opened Basics
  import opened RomLayout

  class Registry {
    var descriptors: seq<Descriptor>
    var descriptorCount: nat
    var configRomLength: nat

    ghost predicate Valid()
      reads this
    {
      && Registered(descriptors)
      && descriptorCount == Entries(descriptors) && configRomLength == RomLength(descriptors)
    }

    constructor ()
      ensures Valid() && descriptors == []
    {
      descriptors, descriptorCount, configRomLength := [], 0, 7;
    }

    /** fw_core_add_descriptor */
    method AddDescriptor(d: Descriptor) returns (ret: int)
      requires Valid()
      modifies this
      ensures Valid()
      ensures ret == if !Tiled(d.data, 0) then EINVAL
        else if old(configRomLength) + RequiredSpace(d) > LIMIT then EBUSY else 0
      ensures descriptors == if ret == 0 then old(descriptors) + [d] else old(descriptors)
    {
      var i := 0;
      while i < |d.data|
        invariant Tiled(d.data, i) == Tiled(d.data, 0)
        decreases |d.data| - i
      {
        i := i + R.BlockLength(d.data[i]) + 1;
      }
      if i != |d.data| {
        return EINVAL;
      }
      if configRomLength + RequiredSpace(d) > 256 {
        return EBUSY;
      }
      SumsAppend(descriptors, d);
      descriptors := descriptors + [d];
      configRomLength := configRomLength + RequiredSpace(d);
      descriptorCount := descriptorCount + 1;
      if d.immediate > 0 {
        descriptorCount := descriptorCount + 1;
      }
      return 0;
    }

    /** fw_core_remove_descriptor, for the registered descriptor number `k`. */
    method RemoveDescriptor(k: nat)
      requires Valid() && k < |descriptors|
      modifies this
      ensures Valid() && descriptors == old(descriptors)[..k] + old(descriptors)[k + 1..]
    {
      SumsRemove(descriptors, k);
      var d := descriptors[k];
      descriptors := descriptors[..k] + descriptors[k + 1..];
      configRomLength := configRomLength - RequiredSpace(d);
      descriptorCount := descriptorCount - 1;
      if d.immediate > 0 {
        descriptorCount := descriptorCount - 1;
      }
    }

    /** generate_config_rom: exactly configRomLength quadlets, as laid out and sealed. */
    method GenerateConfigRom(card: Card, crc: Crc, rom: array<u32>) returns (j: nat)
      requires Valid() && CardOk(card) && rom.Length == LIMIT
      modifies rom
      ensures Valid() && j == configRomLength && rom[..j] == Rom(card, descriptors, crc)
    {
      hide Tiled, RootEntries, Data, Stepped, IsHeader, Seal;
      ghost var ds := descriptors;
      ghost var raw := Raw(card, ds);
      rom[0], rom[1], rom[2] := 0x0404_0000, BUS_NAME, BusOptions(card);
      rom[3], rom[4], rom[6] := card.guidHigh, card.guidLow, NODE_CAPABILITIES;
      j := WriteEntries(rom);
      var i := 7 + descriptorCount;
      rom[5] := (i - 5 - 1) * 0x1_0000;
      WriteData(rom, i);
      assert rom[..j] == raw by {
        hide Entries, Quadlets, BusOptions;
      }
      SealAll(rom, j, raw, crc, card);
    }

    /** The root directory entries, in the order of registration. */
    method WriteEntries(rom: array<u32>) returns (j: nat)
      requires Valid() && rom.Length == LIMIT
      modifies rom
      ensures j == configRomLength
      ensures forall x | 0 <= x < LIMIT && (x < 7 || 7 + Entries(descriptors) <= x) :: rom[x] == old(rom[x])
      ensures rom[7..7 + Entries(descriptors)] == RootEntries(descriptors, 7, 7 + Entries(descriptors))
    {
      hide Tiled, RootEntries, Entries, Quadlets, WithLow;
      ghost var ds := descriptors;
      ghost var root := RootEntries(ds, 7, 7 + Entries(ds));
      var i, n := 7, 0;
      j := 7 + descriptorCount;
      PrefixSums(ds, 0);
      while n < |descriptors|
        invariant n <= |ds| == |descriptors|
        invariant i == 7 + Entries(ds[..n]) <= 7 + Entries(ds) && j == 7 + Entries(ds) + Quadlets(ds[..n])
        invariant forall x | 0 <= x < LIMIT && (x < 7 || 7 + Entries(ds) <= x) :: rom[x] == old(rom[x])
        invariant forall x | 7 <= x < i :: rom[x] == root[x - 7]
      {
        var d := descriptors[n];
        EntriesSplit(ds, n);
        QuadletsStep(ds, n);
        EntryAt(ds, 7, 7 + Entries(ds), n);
        PointerIs(ds, n);
        if d.immediate > 0 {
          ImmediateAt(ds, 7, 7 + Entries(ds), n);
          rom[i] := d.immediate;
          i := i + 1;
        }
        rom[i] := WithLow(d.key, j - i);
        i := i + 1;
        j := j + |d.data|;
        n := n + 1;
      }
      assert ds[..n] == ds;
    }

    /** The descriptors' data, from index `start` on. */
    method WriteData(rom: array<u32>, start: nat)
      requires Valid() && rom.Length == LIMIT && start == 7 + Entries(descriptors)
      modifies rom
      ensures forall x | 0 <= x < start :: rom[x] == old(rom[x])
      ensures rom[start..configRomLength] == Data(descriptors)
    {
      hide Tiled, Entries, Quadlets, Data;
      ghost var ds := descriptors;
      var i, n := start, 0;
      PrefixSums(ds, 0);
      while n < |descriptors|
        invariant n <= |ds| == |descriptors| && i == start + Quadlets(ds[..n]) <= configRomLength
        invariant forall x | 0 <= x < start :: rom[x] == old(rom[x])
        invariant forall x | start <= x < i :: rom[x] == Data(ds)[x - start]
      {
        var d := descriptors[n];
        QuadletsStep(ds, n);
        EntriesSplit(ds, n);
        var k := 0;
        while k < |d.data|
          invariant k <= |d.data|
          invariant forall x | 0 <= x < start :: rom[x] == old(rom[x])
          invariant forall x | start <= x < i + k :: rom[x] == Data(ds)[x - start]
        {
          DataAt(ds, n, k);
          rom[i + k] := d.data[k];
          k := k + 1;
        }
        i := i + |d.data|;
        n := n + 1;
      }
      assert ds[..n] == ds;
    }

    /** The CRC pass. */
    method SealAll(rom: array<u32>, j: nat, ghost raw: seq<u32>, crc: Crc, ghost card: Card)
      requires Valid() && CardOk(card) && rom.Length == LIMIT && j == configRomLength
      requires raw == Raw(card, descriptors) && rom[..j] == raw
      modifies rom
      ensures rom[..j] == Rom(card, descriptors, crc)
    {
      hide Tiled, Raw, IsHeader, Entries, Quadlets, SealHeader;
      RawStepped(card, descriptors);
      var i := 0;
      while i < j
        invariant i <= j && Stepped(rom[..j], i) && Seal(rom[..j], i, crc) == Seal(raw, 0, crc)
        decreases j - i
      {
        ghost var before := rom[..j];
        var length := CrcLength(rom[i]);
        assert before[i] == rom[i] && i + length < j;
        assert before[i + 1..i + 1 + length] == rom[i + 1..i + 1 + length];
        rom[i] := SealHeader(rom[i], crc(rom[i + 1..i + 1 + length]));
        assert rom[..j] == SealBlock(before, i, crc);
        SteppedSame(before, SealBlock(before, i, crc), i + length + 1, 0);
        i := i + length + 1;
      }
    }
  }

  lemma {:induction false} SumsAppend(ds: seq<Descriptor>, d: Descriptor)
    ensures Entries(ds + [d]) == Entries(ds) + EntriesOf(d) && Quadlets(ds + [d]) == Quadlets(ds) + |d.data|
  {
    if ds == [] {
      assert ds + [d] == [d] && [d][1..] == [];
    } else {
      SumsAppend(ds[1..], d);
      assert (ds + [d])[1..] == ds[1..] + [d];
    }
  }

  lemma {:induction false} SumsRemove(ds: seq<Descriptor>, k: nat)
    requires k < |ds|
    ensures Entries(ds[..k] + ds[k + 1..]) == Entries(ds) - EntriesOf(ds[k])
    ensures Quadlets(ds[..k] + ds[k + 1..]) == Quadlets(ds) - |ds[k].data|
  {
    var rest := ds[..k] + ds[k + 1..];
    if k == 0 {
      assert rest == ds[1..];
    } else {
      SumsRemove(ds[1..], k - 1);
      assert rest[1..] == ds[1..][..k - 1] + ds[1..][k..];
    }
  }

  lemma QuadletsStep(ds: seq<Descriptor>, k: nat)
    requires k < |ds|
    ensures Quadlets(ds[..k + 1]) == Quadlets(ds[..k]) + |ds[k].data|
  {
    assert ds[..k + 1] == ds[..k] + [ds[k]];
    SumsAppend(ds[..k], ds[k]);
  }

  lemma PointerIs(ds: seq<Descriptor>, k: nat)
    requires k < |ds| && RomLength(ds) <= LIMIT
    ensures Quadlets(ds[..k]) <= Quadlets(ds) && Entries(ds[..k]) + EntriesOf(ds[k]) <= Entries(ds)
    ensures Pointer(ds, 7, 7 + Entries(ds), k)
      == WithLow(ds[k].key, 7 + Entries(ds) + Quadlets(ds[..k]) - (7 + Entries(ds[..k]) + EntriesOf(ds[k]) - 1))
  {
    hide Entries, Quadlets, WithLow, EntriesOf;
    EntriesSplit(ds, k);
  }
}
