/** Where things are on the disk, byte by byte: what the file system's invariant means to
    anyone else who reads the same blocks. */
module FsLayout {
  import opened FsCodec
  import opened FsOwnership
  import opened FsContent

  /** An unsigned int in memory order of RISC-V. */
  function Uint(b: Block, o: nat): nat
    requires o + 3 < |b|
  {
    (b[o] as int) + 0x100 * (b[o + 1] as int) + 0x1_0000 * (b[o + 2] as int) + 0x100_0000 * (b[o + 3] as int)
  }

  function Ushort(b: Block, o: nat): nat
    requires o + 1 < |b|
  {
    (b[o] as int) + 0x100 * (b[o + 1] as int)
  }

  const MASK := [1, 2, 4, 8, 16, 32, 64, 128]

  lemma Digit(x: nat, k: nat)
    requires k < 8
    ensures BitOf(x, k) <==> x / MASK[k] % 2 == 1
  {
    var x1 := x / 2;
    var x2 := x1 / 2;
    var x3 := x2 / 2;
    var x4 := x3 / 2;
    var x5 := x4 / 2;
    var x6 := x5 / 2;
    var x7 := x6 / 2;
    assert x2 == x / 4 && x3 == x / 8 && x4 == x / 16 && x5 == x / 32 && x6 == x / 64 && x7 == x / 128;
    assert k >= 1 ==> BitOf(x, k) == BitOf(x1, k - 1);
    assert k >= 2 ==> BitOf(x1, k - 1) == BitOf(x2, k - 2);
    assert k >= 3 ==> BitOf(x2, k - 2) == BitOf(x3, k - 3);
    assert k >= 4 ==> BitOf(x3, k - 3) == BitOf(x4, k - 4);
    assert k >= 5 ==> BitOf(x4, k - 4) == BitOf(x5, k - 5);
    assert k >= 6 ==> BitOf(x5, k - 5) == BitOf(x6, k - 6);
    assert k >= 7 ==> BitOf(x6, k - 6) == BitOf(x7, k - 7);
  }

  lemma MapByte(map_: Block, b: nat)
    requires |map_| == 1024
    ensures Bit(map_, b % 8192) <==> map_[b % 8192 / 8] / MASK[b % 8] % 2 == 1
  {
    hide BitOf;
    assert b % 8192 % 8 == b % 8;
    Digit(map_[b % 8192 / 8], b % 8);
  }

  /** The free map: one bit per block, from bmapstart on, set exactly for the metadata and
      for the blocks that some inode or indirect block refers to. */
  lemma MapBit(sb: Super, fs: Fs, own: map<nat, Slot>, b: nat)
    requires Stable(sb, fs, own) && b < sb.size
    ensures sb.bmapstart + b / 8192 < |fs.disk| && |fs.disk[sb.bmapstart + b / 8192]| == 1024
    ensures fs.disk[sb.bmapstart + b / 8192][b % 8192 / 8] / MASK[b % 8] % 2 == 1 <==> b < sb.datastart || exists s :: Addr(fs, s) == b
  {
    hide OwnOk, Synced, Addr, Bit;
    assert sb.BBlock(b) < sb.datastart;
    assert InUse(sb, fs.disk, b) <==> b < sb.datastart || b in own;
    MapByte(fs.disk[sb.BBlock(b)], b);
    if b >= sb.datastart {
      Referred(sb, fs, own, b);
    }
  }

  lemma Referred(sb: Super, fs: Fs, own: map<nat, Slot>, b: nat)
    requires OwnOk(sb, fs, own, {}) && b > 0
    ensures b in own <==> exists s :: Addr(fs, s) == b
  {
    hide Addr;
  }

  /** An inode is 64 bytes of a block from inodestart on. */
  lemma InodeBytes(sb: Super, fs: Fs, own: map<nat, Slot>, i: nat)
    requires Stable(sb, fs, own) && i < sb.ninodes
    ensures i < |fs.inode| && sb.inodestart + i / 16 < |fs.disk| && |fs.disk[sb.inodestart + i / 16]| == 1024
    ensures var b, o, ino := fs.disk[sb.inodestart + i / 16], 64 * (i % 16), fs.inode[i];
      && ino.kind == Ushort(b, o) && ino.major == Ushort(b, o + 2) && ino.minor == Ushort(b, o + 4) && ino.nlink == Ushort(b, o + 6)
      && ino.size == Uint(b, o + 8) && |ino.addrs| == 13 && forall k :: 0 <= k < 13 ==> ino.addrs[k] == Uint(b, o + 12 + 4 * k)
  {
    hide OwnOk, BitsOk, DinodeAt;
    assert sb.IBlock(i) < sb.bmapstart;
    DinodeLayout(fs.disk[sb.IBlock(i)], i % 16);
  }

  /** Byte o of a file is in the block that the inode names for it, directly up to block
      12 and through the indirect block from there on; 0 if there is no such block. */
  lemma FileByte(sb: Super, fs: Fs, own: map<nat, Slot>, i: nat, o: nat)
    requires Stable(sb, fs, own) && i < sb.ninodes && i < |fs.inode| && o < fs.inode[i].size && o / 1024 < 12 + 256
    ensures |fs.inode[i].addrs| == 13 && forall b :: 0 <= b < |fs.disk| ==> |fs.disk[b]| == 1024
    ensures fs.inode[i].addrs[12] < |fs.disk|
    ensures var addrs, bn := fs.inode[i].addrs, o / 1024;
      var a := if bn < 12 then addrs[bn] else if addrs[12] == 0 then 0 else Uint(fs.disk[addrs[12]], 4 * (bn - 12));
      && a < |fs.disk|
      && (a == 0 ==> Content(fs, i)[o] == 0)
      && (a != 0 ==> sb.datastart <= a && Content(fs, i)[o] == fs.disk[a][o % 1024])
  {
    hide BitsOk, Synced;
    assert Addr(fs, Slot(i, 12)) == fs.inode[i].addrs[12];
    var s := Slot(i, if o / 1024 < 12 then o / 1024 else o / 1024 + 1);
    assert s == DataSlot(i, o / 1024);
    assert Content(fs, i)[o] == ByteAt(fs, i, o);
    assert Addr(fs, s) != 0 ==> sb.datastart <= Addr(fs, s) < sb.size;
  }
}
