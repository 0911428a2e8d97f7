/** The sector layer of the ATA driver: reads go through the block cache, writes go
    to the cache and to the device. The device is an array of sectors per drive. */
module Ata {
  import opened Basics
  import opened CacheModel
  import opened BlockCache

  const BLOCK_SIZE: nat := 512
  const DRIVES: nat := 4
  const ATA_PRIMARY: nat := 0x1F0
  const ATA_SECONDARY: nat := 0x170

  /** The sectors a drive may have for its keys to stay apart from its neighbour's. */
  const SECTOR_LIMIT: nat := 0x10_0000

  function ZeroSector(): (s: Payload)
    ensures |s| == 512 && forall i :: 0 <= i < 512 ==> s[i] == 0
  {
    seq(BLOCK_SIZE, _ => 0 as Byte)
  }

  type Disk = map<(nat, nat), Payload>

  function Sector(disk: Disk, drive: nat, sector: nat): Payload
  {
    if (drive, sector) in disk then disk[(drive, sector)] else ZeroSector()
  }

  // ----- Cache keys -----

  function Controller(drive: nat): nat
  {
    if drive < 2 then ATA_PRIMARY else ATA_SECONDARY
  }

  function Select(drive: nat): nat
  {
    if drive % 2 == 0 then 0xE0 else 0xF0
  }

  /** The device number as a 16-bit word. */
  function Device(drive: nat): nat
  {
    (Controller(drive) * 0x100 + Select(drive)) % 0x1_0000
  }

  function Key(drive: nat, sector: nat): nat
  {
    Device(drive) * 0x1_0000 + sector
  }

  ghost predicate SameSector(d: nat, s: nat, e: nat, t: nat)
  {
    Key(d, s) == Key(e, t) ==> d == e && s == t
  }

  /** Keys of the four drives differ, and none is the unused key. */
  lemma KeysApart(d: nat, s: nat, e: nat, t: nat)
    requires d < DRIVES && e < DRIVES && s < SECTOR_LIMIT && t < SECTOR_LIMIT
    ensures SameSector(d, s, e, t) && Key(d, s) != 0
  {
    assert Device(0) == 0xF0E0 && Device(1) == 0xF0F0 && Device(2) == 0x70E0 && Device(3) == 0x70F0;
    assert d == 0 || d == 1 || d == 2 || d == 3;
    assert e == 0 || e == 1 || e == 2 || e == 3;
  }

  /** They differ exactly as long as no drive has more sectors than the limit. */
  lemma KeysApartExactly(limit: nat)
    ensures (forall d, s, e, t {:trigger SameSector(d, s, e, t)} ::
               0 <= d < DRIVES && 0 <= e < DRIVES && 0 <= s < limit && 0 <= t < limit ==> SameSector(d, s, e, t))
            <==> limit <= 0x10_0000
  {
    if limit <= SECTOR_LIMIT {
      forall d, s, e, t {:trigger SameSector(d, s, e, t)} |
        0 <= d < DRIVES && 0 <= e < DRIVES && 0 <= s < limit && 0 <= t < limit
        ensures SameSector(d, s, e, t)
      {
        KeysApart(d, s, e, t);
      }
    } else {
      assert Device(0) == 0xF0E0 && Device(1) == 0xF0F0;
      assert Key(0, SECTOR_LIMIT) == Key(1, 0);
      assert !SameSector(0, SECTOR_LIMIT, 1, 0);
    }
  }

  // ----- Coherence -----

  /** A cached block repeats the sector it stands for. */
  ghost predicate Repeats(disk: Disk, b: Block, drive: nat, sector: nat)
  {
    Key(drive, sector) == b.key ==> b.payload == Sector(disk, drive, sector)
  }

  ghost predicate BlockCoherent(disk: Disk, b: Block)
  {
    forall d, s {:trigger Repeats(disk, b, d, s)} :: 0 <= d < DRIVES && 0 <= s < SECTOR_LIMIT ==> Repeats(disk, b, d, s)
  }

  /** All blocks repeat the disk, except perhaps those with a key in `bad`. */
  ghost predicate CoherentBut(disk: Disk, mem: Blocks, fifo: seq<nat>, bad: set<nat>)
  {
    forall i :: 0 <= i < |fifo| && fifo[i] < |mem| && mem[fifo[i]].key !in bad ==> BlockCoherent(disk, mem[fifo[i]])
  }

  lemma UnusedIsCoherent(disk: Disk, b: Block)
    requires b.key == 0
    ensures BlockCoherent(disk, b)
  {
    forall d, s {:trigger Repeats(disk, b, d, s)} | 0 <= d < DRIVES && 0 <= s < SECTOR_LIMIT
      ensures Repeats(disk, b, d, s)
    {
      KeysApart(d, s, d, s);
    }
  }

  /** Coherence of a block is about its key and its payload only. */
  lemma CoherenceFrame(disk: Disk, b: Block, b': Block)
    requires BlockCoherent(disk, b) && b.key == b'.key && b.payload == b'.payload
    ensures BlockCoherent(disk, b')
  {
    forall d, s {:trigger Repeats(disk, b', d, s)} | 0 <= d < DRIVES && 0 <= s < SECTOR_LIMIT
      ensures Repeats(disk, b', d, s)
    {
      assert Repeats(disk, b, d, s);
    }
  }

  /** A miss breaks coherence only for the block it takes over. */
  lemma MissIsCoherentBut(disk: Disk, mem: Blocks, mem': Blocks, fifo: seq<nat>, bad: set<nat>, k: nat)
    requires |mem| == |mem'| && fifo != [] && CoherentBut(disk, mem, fifo, bad) && Distinct(fifo)
    requires forall i :: 0 <= i < |fifo| ==> fifo[i] < |mem|
    requires mem'[fifo[0]].key == k
    requires forall i :: 0 <= i < |mem| && i != fifo[0] ==>
             mem'[i].key == mem[i].key && mem'[i].payload == mem[i].payload
    ensures CoherentBut(disk, mem', fifo[1..] + [fifo[0]], bad + {k})
  {
    var fifo' := fifo[1..] + [fifo[0]];
    forall i | 0 <= i < |fifo'| && mem'[fifo'[i]].key !in bad + {k} ensures BlockCoherent(disk, mem'[fifo'[i]]) {
      assert fifo'[i] == fifo[i + 1];
      CoherenceFrame(disk, mem[fifo[i + 1]], mem'[fifo'[i]]);
    }
  }

  /** Keys that no block carries do not count. */
  lemma OnlyHeldCount(disk: Disk, mem: Blocks, fifo: seq<nat>, bad: set<nat>, bad': set<nat>)
    requires CoherentBut(disk, mem, fifo, bad) && forall i :: 0 <= i < |fifo| ==> fifo[i] < |mem|
    requires forall k :: k in bad && k != 0 && k in Keys(mem, fifo) ==> k in bad'
    ensures CoherentBut(disk, mem, fifo, bad')
  {
    forall i | 0 <= i < |fifo| && mem[fifo[i]].key !in bad' ensures BlockCoherent(disk, mem[fifo[i]]) {
      KeysMembers(mem, fifo, mem[fifo[i]].key);
      if mem[fifo[i]].key == 0 { UnusedIsCoherent(disk, mem[fifo[i]]); }
    }
  }

  lemma CopyIsCoherent(disk: Disk, b: Block, drive: nat, sector: nat)
    requires drive < DRIVES && sector < SECTOR_LIMIT && b.key == Key(drive, sector)
    requires b.payload == Sector(disk, drive, sector)
    ensures BlockCoherent(disk, b)
  {
    forall d, s {:trigger Repeats(disk, b, d, s)} | 0 <= d < DRIVES && 0 <= s < SECTOR_LIMIT
      ensures Repeats(disk, b, d, s)
    {
      KeysApart(d, s, drive, sector);
    }
  }

  /** Filling a block makes it coherent. */
  lemma FillIsCoherent(disk: Disk, mem: Blocks, mem': Blocks, fifo: seq<nat>, b: nat, drive: nat, sector: nat,
      bad: set<nat>)
    requires drive < DRIVES && sector < SECTOR_LIMIT && |mem| == |mem'|
    requires CoherentBut(disk, mem, fifo, bad + {Key(drive, sector)}) && KeysUnique(mem, fifo) && b in fifo && b < |mem|
    requires mem[b].key == Key(drive, sector) && mem' == mem[b := mem[b].(payload := Sector(disk, drive, sector))]
    ensures CoherentBut(disk, mem', fifo, bad - {Key(drive, sector)})
  {
    KeysApart(drive, sector, drive, sector);
    var j :| 0 <= j < |fifo| && fifo[j] == b;
    forall i | 0 <= i < |fifo| && fifo[i] < |mem'| && mem'[fifo[i]].key !in bad - {Key(drive, sector)}
      ensures BlockCoherent(disk, mem'[fifo[i]])
    {
      if fifo[i] == b {
        CopyIsCoherent(disk, mem'[b], drive, sector);
      } else {
        assert KeysDiffer(mem, fifo, j, i);
      }
    }
  }

  /** Changing the payload of a block affects only its own sector. */
  lemma ChangeIsCoherentBut(disk: Disk, mem: Blocks, mem': Blocks, fifo: seq<nat>, b: nat, data: Payload, bad: set<nat>)
    requires CoherentBut(disk, mem, fifo, bad) && b < |mem| && mem' == mem[b := mem[b].(payload := data)]
    ensures CoherentBut(disk, mem', fifo, bad + {mem[b].key})
  {
    forall i | 0 <= i < |fifo| && fifo[i] < |mem'| && mem'[fifo[i]].key !in bad + {mem[b].key}
      ensures BlockCoherent(disk, mem'[fifo[i]])
    {
      assert fifo[i] != b;
    }
  }

  /** Writing a sector leaves blocks of other sectors coherent. */
  lemma WriteIsCoherentBut(disk: Disk, mem: Blocks, fifo: seq<nat>, drive: nat, sector: nat, data: Payload,
      bad: set<nat>)
    requires drive < DRIVES && sector < SECTOR_LIMIT && CoherentBut(disk, mem, fifo, bad) && Key(drive, sector) in bad
    ensures CoherentBut(disk[(drive, sector) := data], mem, fifo, bad)
  {
    var disk' := disk[(drive, sector) := data];
    forall i | 0 <= i < |fifo| && fifo[i] < |mem| && mem[fifo[i]].key !in bad
      ensures BlockCoherent(disk', mem[fifo[i]])
    {
      var b := mem[fifo[i]];
      forall d, s {:trigger Repeats(disk', b, d, s)} | 0 <= d < DRIVES && 0 <= s < SECTOR_LIMIT
        ensures Repeats(disk', b, d, s)
      {
        assert Repeats(disk, b, d, s);
      }
    }
  }

  /** The i-th of the sectors read is the one on the device, unless its key is in `bad`. */
  ghost predicate ReadAt(disk: Disk, drive: nat, start: nat, target: seq<Payload>, bad: set<nat>, i: nat)
  {
    i < |target| && (Key(drive, start + i) !in bad ==> target[i] == Sector(disk, drive, start + i))
  }

  /** `target` is what the bare device holds from `start` on, except where the key is in `bad`. */
  ghost predicate IsRead(disk: Disk, drive: nat, start: nat, target: seq<Payload>, bad: set<nat>)
  {
    forall i {:trigger ReadAt(disk, drive, start, target, bad, i)} ::
      0 <= i < |target| ==> ReadAt(disk, drive, start, target, bad, i)
  }

  lemma IsReadAppend(disk: Disk, drive: nat, start: nat, target: seq<Payload>, bad: set<nat>, data: Payload)
    requires IsRead(disk, drive, start, target, bad)
    requires Key(drive, start + |target|) !in bad ==> data == Sector(disk, drive, start + |target|)
    ensures IsRead(disk, drive, start, target + [data], bad)
  {
    var target' := target + [data];
    forall i {:trigger ReadAt(disk, drive, start, target', bad, i)} | 0 <= i < |target'|
      ensures ReadAt(disk, drive, start, target', bad, i)
    {
      assert i < |target| ==> ReadAt(disk, drive, start, target, bad, i);
    }
  }

  /** `target` was read from `start` on, and only keys bad before are bad. */
  ghost predicate ReadGood(disk: Disk, drive: nat, start: nat, target: seq<Payload>, bad: set<nat>, bad': set<nat>)
  {
    IsRead(disk, drive, start, target, bad) && bad' <= bad
  }

  /** Only the key of this sector may have become bad. */
  ghost predicate OthersStay(bad: set<nat>, bad': set<nat>, drive: nat, sector: nat)
  {
    bad' <= bad + {Key(drive, sector)}
  }

  /** The bad keys after a read: those that stayed in the cache, and `k` if it failed. */
  ghost function AfterRead(bad: set<nat>, was: seq<nat>, now: seq<nat>, k: nat, ok: bool): (bad': set<nat>)
    ensures bad' <= bad + {k} && (ok ==> bad' <= bad)
  {
    (set j | j in bad && j in was && j in now) + (if ok then {} else {k})
  }

  /** The bad keys after a write: success makes the key good, a failure bad if it is held. */
  ghost function AfterWrite(bad: set<nat>, k: nat, held: bool, ok: bool): set<nat>
  {
    if ok then bad - {k} else if held then bad + {k} else bad
  }

  lemma AfterWriteStays(bad: set<nat>, drive: nat, sector: nat, held: bool, ok: bool)
    ensures var bad' := AfterWrite(bad, Key(drive, sector), held, ok);
            OthersStay(bad, bad', drive, sector) && (ok ==> GoodAt(bad', drive, sector) && bad' <= bad)
  {
  }

  ghost predicate GoodAt(bad: set<nat>, drive: nat, sector: nat)
  {
    Key(drive, sector) !in bad
  }

  /** None of the keys of `n` sectors from `start` on is in `bad`. */
  ghost predicate AllGood(bad: set<nat>, drive: nat, start: nat, n: nat)
  {
    forall s: nat {:trigger GoodAt(bad, drive, s)} :: start <= s < start + n ==> GoodAt(bad, drive, s)
  }

  /** Sectors stay good while only the key of the next one may become bad. */
  lemma StillGood(bad: set<nat>, bad': set<nat>, drive: nat, start: nat, n: nat)
    requires AllGood(bad, drive, start, n) && OthersStay(bad, bad', drive, start + n)
    ensures AllGood(bad', drive, start, n) && (GoodAt(bad', drive, start + n) ==> AllGood(bad', drive, start, n + 1))
  {
    forall s: nat {:trigger GoodAt(bad', drive, s)} | start <= s < start + n ensures GoodAt(bad', drive, s) {
      assert GoodAt(bad, drive, s);
    }
  }

  /** Sector `s` of drive `d` holds what a bare device would after the write. */
  ghost predicate WrittenAt(disk: Disk, disk': Disk, drive: nat, start: nat, source: seq<Payload>, d: nat, s: nat)
  {
    Sector(disk', d, s) ==
      if d == drive && start <= s < start + |source| then source[s - start] else Sector(disk, d, s)
  }

  /** `disk'` is the bare device `disk` after writing `source` from `start` on. */
  ghost predicate IsWritten(disk: Disk, disk': Disk, drive: nat, start: nat, source: seq<Payload>)
  {
    forall d: nat, s: nat {:trigger WrittenAt(disk, disk', drive, start, source, d, s)} ::
      WrittenAt(disk, disk', drive, start, source, d, s)
  }

  lemma IsWrittenAppend(disk: Disk, disk': Disk, drive: nat, start: nat, source: seq<Payload>, data: Payload)
    requires IsWritten(disk, disk', drive, start, source)
    ensures IsWritten(disk, disk'[(drive, start + |source|) := data], drive, start, source + [data])
  {
    var disk'', source' := disk'[(drive, start + |source|) := data], source + [data];
    forall d: nat, s: nat {:trigger WrittenAt(disk, disk'', drive, start, source', d, s)}
      ensures WrittenAt(disk, disk'', drive, start, source', d, s)
    {
      assert WrittenAt(disk, disk', drive, start, source, d, s);
    }
  }

  /** `source` was written from `start` on, and only keys bad before are bad. */
  ghost predicate WroteGood(disk: Disk, disk': Disk, drive: nat, start: nat, source: seq<Payload>, bad: set<nat>,
      bad': set<nat>)
  {
    IsWritten(disk, disk', drive, start, source) && AllGood(bad', drive, start, |source|) && bad' <= bad
  }

  datatype Status = Ok | Failed

  class Driver {
    const cache: Cache
    var disk: Disk
    /** The keys that a failed transfer may have left with wrong contents. */
    ghost var bad: set<nat>

    ghost predicate Coherent()
      reads this, cache, cache.memory, cache.hashTable
    {
      cache.Valid() && CoherentBut(disk, cache.memory[..], cache.fifo, bad)
    }

    constructor (disk: Disk)
      ensures Coherent() && bad == {} && this.disk == disk && fresh(cache) && fresh(cache.memory)
      ensures fresh(cache.hashTable) && cache.blocks == 256 && cache.missed == []
    {
      var c := new Cache(256);
      cache := c;
      this.disk := disk;
      bad := {};
      new;
      ghost var mem, fifo := cache.memory[..], cache.fifo;
      forall i | 0 <= i < |fifo| && fifo[i] < |mem| ensures BlockCoherent(disk, mem[fifo[i]]) {
        KeysMembers(mem, fifo, mem[fifo[i]].key);
        UnusedIsCoherent(disk, mem[fifo[i]]);
      }
    }

    /** One sector through the cache. `ok` is whether the device would transfer it. A
        failure leaves its key among the bad ones; keys that leave the cache leave them. */
    method ReadSector(drive: nat, sector: nat, ok: bool) returns (st: Status, data: Payload)
      requires Coherent() && drive < DRIVES && sector < SECTOR_LIMIT
      modifies this`bad, cache, cache.memory, cache.hashTable
      ensures Coherent() && (st.Ok? <==> ok || Key(drive, sector) in old(cache.Held()))
      ensures st.Ok? && Key(drive, sector) !in old(bad) ==> data == Sector(disk, drive, sector)
      ensures cache.missed == old(cache.missed) + if Key(drive, sector) in old(cache.Held()) then []
                                                  else [Key(drive, sector)]
      ensures bad == AfterRead(old(bad), old(cache.Held()), cache.Held(), Key(drive, sector), st.Ok?)
    {
      KeysApart(drive, sector, drive, sector);
      ghost var mem, fifo, k, was := cache.memory[..], cache.fifo, Key(drive, sector), cache.Held();
      var block, valid := cache.GetBlock(Key(drive, sector));
      if valid {
        OnlyHeldCount(disk, mem, fifo, bad, AfterRead(bad, was, was, k, true));
        bad := AfterRead(bad, was, was, k, true);
        assert k !in bad ==> Repeats(disk, cache.memory[block], drive, sector) by {
          assert k !in bad ==> BlockCoherent(disk, cache.memory[block]);
        }
      } else {
        MissIsCoherentBut(disk, mem, cache.memory[..], fifo, bad, k);
        st := FillOrFail(block, drive, sector, ok, was);
        if st.Failed? {
          return st, [];
        }
      }
      data := cache.memory[block].payload;
      st := Ok;
    }

    /** The transfer into a block that was taken over for a key that was not held. */
    method FillOrFail(block: nat, drive: nat, sector: nat, ok: bool, ghost was: seq<nat>) returns (st: Status)
      requires cache.Valid() && drive < DRIVES && sector < SECTOR_LIMIT && block < cache.blocks && block in cache.fifo
      requires CoherentBut(disk, cache.memory[..], cache.fifo, bad + {Key(drive, sector)}) && Key(drive, sector) !in was
      requires cache.memory[block].key == Key(drive, sector)
      requires forall k :: k in cache.Held() ==> k in was || k == Key(drive, sector)
      modifies this`bad, cache.memory
      ensures Coherent() && (st.Ok? <==> ok) && cache.Held() == old(cache.Held())
      ensures ok ==> cache.memory[block].payload == Sector(disk, drive, sector)
      ensures bad == AfterRead(old(bad), was, cache.Held(), Key(drive, sector), st.Ok?)
    {
      ghost var k, now := Key(drive, sector), cache.Held();
      ghost var mid := cache.memory[..];
      if !ok {
        OnlyHeldCount(disk, mid, cache.fifo, bad + {k}, AfterRead(bad, was, now, k, false));
        bad := AfterRead(bad, was, now, k, false);
        return Failed;
      }
      cache.Fill(block, Sector(disk, drive, sector));
      FillIsCoherent(disk, mid, cache.memory[..], cache.fifo, block, drive, sector, bad);
      OnlyHeldCount(disk, cache.memory[..], cache.fifo, bad - {k}, AfterRead(bad, was, now, k, true));
      bad := AfterRead(bad, was, now, k, true);
      st := Ok;
    }

    /** Appends the next sector to those read from `start` on. */
    method ReadNext(drive: nat, start: nat, target: seq<Payload>, ok: bool, ghost bad0: set<nat>)
      returns (st: Status, target': seq<Payload>)
      requires Coherent() && drive < DRIVES && start + |target| < SECTOR_LIMIT
      requires ReadGood(disk, drive, start, target, bad0, bad)
      modifies this`bad, cache, cache.memory, cache.hashTable
      ensures Coherent() && (ok ==> st.Ok?)
      ensures st.Ok? ==> |target'| == |target| + 1 && ReadGood(disk, drive, start, target', bad0, bad)
      ensures st.Failed? ==> target' == target && OthersStay(bad0, bad, drive, start + |target|)
    {
      ghost var d := disk;
      var data;
      st, data := ReadSector(drive, start + |target|, ok);
      if st.Ok? { IsReadAppend(d, drive, start, target, bad0, data); }
      target' := if st.Ok? then target + [data] else target;
    }

    /** Reads `count` sectors from `start` on. `ok[i]` is whether the device would
        transfer the i-th of them; `read` counts the bytes read. */
    method ReadSectors(drive: nat, start: nat, count: nat, ok: seq<bool>)
      returns (st: Status, target: seq<Payload>, read: nat)
      requires Coherent() && drive < DRIVES && start + count <= SECTOR_LIMIT && |ok| == count < 256
      modifies this`bad, cache, cache.memory, cache.hashTable
      ensures Coherent() && read == 512 * |target| && |target| <= count
      ensures IsRead(disk, drive, start, target, old(bad))
      ensures (forall i :: 0 <= i < count ==> ok[i]) ==> st.Ok?
      ensures st.Ok? ==> |target| == count && bad <= old(bad)
      ensures st.Failed? ==> |target| < count && !ok[|target|] && OthersStay(old(bad), bad, drive, start + |target|)
    {
      ghost var bad0 := bad;
      target, read := [], 0;
      for i := 0 to count
        invariant Coherent() && |target| == i && read == BLOCK_SIZE * i
        invariant ReadGood(disk, drive, start, target, bad0, bad)
      {
        var more;
        st, more := ReadNext(drive, start, target, ok[i], bad0);
        if st.Failed? {
          return;
        }
        target, read := more, read + BLOCK_SIZE;
      }
      st := Ok;
    }

    /** One sector to the cache, if it is there, and to the device. Success makes its key
        good; a failure makes it bad if it is held. */
    method WriteSector(drive: nat, sector: nat, data: Payload, ok: bool) returns (st: Status)
      requires Coherent() && drive < DRIVES && sector < SECTOR_LIMIT
      modifies this`disk, this`bad, cache.memory
      ensures Coherent() && (ok <==> st.Ok?) && cache.Held() == old(cache.Held())
      ensures disk == if ok then old(disk)[(drive, sector) := data] else old(disk)
      ensures bad == AfterWrite(old(bad), Key(drive, sector), Key(drive, sector) in cache.Held(), ok)
    {
      KeysApart(drive, sector, drive, sector);
      ghost var k := Key(drive, sector);
      var block := UpdateCached(Key(drive, sector), data);
      if !ok {
        bad := if block != NIL then bad + {k} else bad;
        return Failed;
      }
      ghost var mem, fifo := cache.memory[..], cache.fifo;
      WriteIsCoherentBut(disk, mem, fifo, drive, sector, data, bad + {k});
      disk := disk[(drive, sector) := data];
      assert CoherentBut(disk, mem, fifo, bad - {k}) by {
        if block != NIL {
          assert mem == mem[block := mem[block].(payload := data)];
          FillIsCoherent(disk, mem, mem, fifo, block, drive, sector, bad);
        } else {
          OnlyHeldCount(disk, mem, fifo, bad + {k}, bad - {k});
        }
      }
      bad := bad - {k};
      return Ok;
    }

    /** The block of the key, if there is one, gets the data. */
    method UpdateCached(k: nat, data: Payload) returns (block: int)
      requires Coherent() && k != 0
      modifies cache.memory
      ensures cache.Valid() && cache.Held() == old(cache.Held()) && (block != NIL <==> k in cache.Held())
      ensures CoherentBut(disk, cache.memory[..], cache.fifo, bad + {k})
      ensures block == NIL ==> cache.memory[..] == old(cache.memory[..])
      ensures block != NIL ==>
                && 0 <= block < cache.blocks && block in cache.fifo
                && cache.memory[block].key == k && cache.memory[block].payload == data
    {
      ghost var mem := cache.memory[..];
      block := cache.BlockIfPresent(k);
      if block != NIL {
        cache.Fill(block, data);
        ChangeIsCoherentBut(disk, mem, cache.memory[..], cache.fifo, block, data, bad);
      }
    }

    /** The sector behind those of `done` that were written from `start` on. */
    method WriteNext(drive: nat, start: nat, i: nat, data: Payload, ok: bool,
                     ghost done: seq<Payload>, ghost disk0: Disk, ghost bad0: set<nat>) returns (st: Status)
      requires Coherent() && drive < DRIVES && start + i < SECTOR_LIMIT && i == |done|
      requires WroteGood(disk0, disk, drive, start, done, bad0, bad)
      modifies this`disk, this`bad, cache.memory
      ensures Coherent() && (ok <==> st.Ok?)
      ensures st.Ok? ==> WroteGood(disk0, disk, drive, start, done + [data], bad0, bad)
      ensures st.Failed? ==>
                disk == old(disk) && AllGood(bad, drive, start, i) && OthersStay(bad0, bad, drive, start + i)
    {
      ghost var before, k := bad, Key(drive, start + i);
      IsWrittenAppend(disk0, disk, drive, start, done, data);
      st := WriteSector(drive, start + i, data, ok);
      AfterWriteStays(before, drive, start + i, k in cache.Held(), ok);
      StillGood(before, bad, drive, start, i);
    }

    /** Writes `source` from `start` on; `n` sectors of it reach the device. */
    method WriteSectors(drive: nat, start: nat, source: seq<Payload>, ok: seq<bool>)
      returns (st: Status, written: nat, ghost n: nat)
      requires Coherent() && drive < DRIVES && start + |source| <= SECTOR_LIMIT && |ok| == |source| < 256
      modifies this`disk, this`bad, cache.memory
      ensures Coherent() && written == 512 * n && n <= |source| && AllGood(bad, drive, start, n)
      ensures IsWritten(old(disk), disk, drive, start, source[..n])
      ensures (forall i :: 0 <= i < |source| ==> ok[i]) <==> st.Ok?
      ensures st.Ok? ==> n == |source| && bad <= old(bad)
      ensures st.Failed? ==> n < |source| && !ok[n] && OthersStay(old(bad), bad, drive, start + n)
    {
      written, n := 0, 0;
      for i := 0 to |source|
        invariant Coherent() && n == i && written == BLOCK_SIZE * n
        invariant WroteGood(old(disk), disk, drive, start, source[..i], old(bad), bad)
        invariant forall k :: 0 <= k < i ==> ok[k]
      {
        assert source[..i + 1] == source[..i] + [source[i]];
        st := WriteNext(drive, start, i, source[i], ok[i], source[..i], old(disk), old(bad));
        if st.Failed? {
          return;
        }
        written, n := written + BLOCK_SIZE, n + 1;
      }
      assert source[..|source|] == source;
      st := Ok;
    }

    /** Clears `count` sectors from `start` on; `n` of them are cleared on the device. */
    method ClearSectors(drive: nat, start: nat, count: nat, ok: seq<bool>)
      returns (st: Status, written: nat, ghost n: nat)
      requires Coherent() && drive < DRIVES && start + count <= SECTOR_LIMIT && |ok| == count < 256
      modifies this`disk, this`bad, cache.memory
      ensures Coherent() && written == 512 * n && n <= count && AllGood(bad, drive, start, n)
      ensures IsWritten(old(disk), disk, drive, start, ZeroSectors(n))
      ensures (forall i :: 0 <= i < count ==> ok[i]) <==> st.Ok?
      ensures st.Ok? ==> n == count && bad <= old(bad)
      ensures st.Failed? ==> n < count && !ok[n] && OthersStay(old(bad), bad, drive, start + n)
    {
      written, n := 0, 0;
      for i := 0 to count
        invariant Coherent() && n == i && written == BLOCK_SIZE * n
        invariant WroteGood(old(disk), disk, drive, start, ZeroSectors(i), old(bad), bad)
        invariant forall k :: 0 <= k < i ==> ok[k]
      {
        assert ZeroSectors(i + 1) == ZeroSectors(i) + [ZeroSector()];
        st := WriteNext(drive, start, i, ZeroSector(), ok[i], ZeroSectors(i), old(disk), old(bad));
        if st.Failed? {
          return;
        }
        written, n := written + BLOCK_SIZE, n + 1;
      }
      st := Ok;
    }
  }

  ghost function ZeroSectors(n: nat): (s: seq<Payload>)
    ensures |s| == n && forall i :: 0 <= i < n ==> s[i] == ZeroSector()
  {
    if n == 0 then [] else ZeroSectors(n - 1) + [ZeroSector()]
  }
}
