/** How kernel/fs.c lays bits, 32-bit words and inodes out in a block of bytes. */
module FsCodec {

  type byte = x: nat | x < 256
  type Block = seq<byte>

  const BSIZE := 1024
  const BPB := 8192
  const NDIRECT := 12
  const NINDIRECT := 256
  const MAXFILE := NDIRECT + NINDIRECT
  const IPB := 16
  const UINT := 0x1_0000_0000

  function Zeros(): (b: Block)
    ensures |b| == BSIZE && forall i :: 0 <= i < BSIZE ==> b[i] == 0
  {
    seq(BSIZE, i => 0)
  }

  // ------------------------------------------------------------------ bits

  /** The k-th binary digit of x, x | 1 << k, and x & ~(1 << k). */
  predicate BitOf(x: nat, k: nat) {
    if k == 0 then x % 2 == 1 else BitOf(x / 2, k - 1)
  }

  function OrBit(x: nat, k: nat): nat {
    if k == 0 then 2 * (x / 2) + 1 else 2 * OrBit(x / 2, k - 1) + x % 2
  }

  function AndNotBit(x: nat, k: nat): nat {
    if k == 0 then 2 * (x / 2) else 2 * AndNotBit(x / 2, k - 1) + x % 2
  }

  lemma {:induction false} BitOfOr(x: nat, k: nat, j: nat)
    ensures BitOf(OrBit(x, k), j) <==> j == k || BitOf(x, j)
  {
    if k > 0 && j > 0 {
      BitOfOr(x / 2, k - 1, j - 1);
      assert OrBit(x, k) / 2 == OrBit(x / 2, k - 1);
    } else if j > 0 {
      assert OrBit(x, k) / 2 == x / 2;
    }
  }

  lemma {:induction false} BitOfAndNot(x: nat, k: nat, j: nat)
    ensures BitOf(AndNotBit(x, k), j) <==> j != k && BitOf(x, j)
  {
    if k > 0 && j > 0 {
      BitOfAndNot(x / 2, k - 1, j - 1);
      assert AndNotBit(x, k) / 2 == AndNotBit(x / 2, k - 1);
    } else if j > 0 {
      assert AndNotBit(x, k) / 2 == x / 2;
    }
  }

  function Pow2(n: nat): nat {
    if n == 0 then 1 else 2 * Pow2(n - 1)
  }

  lemma {:induction false} FlippedRange(x: nat, k: nat, n: nat)
    requires k < n && x < Pow2(n)
    ensures OrBit(x, k) < Pow2(n) && AndNotBit(x, k) < Pow2(n)
  {
    if k > 0 {
      FlippedRange(x / 2, k - 1, n - 1);
    }
  }

  lemma FlippedByte(x: byte, k: nat)
    requires k < 8
    ensures OrBit(x, k) < 256 && AndNotBit(x, k) < 256
  {
    assert Pow2(8) == 256 by {
      assert Pow2(4) == 16;
    }
    FlippedRange(x, k, 8);
  }

  /** The bi-th bit of a block of the free map. */
  predicate Bit(b: Block, bi: nat)
    requires |b| == BSIZE && bi < BPB
  {
    BitOf(b[bi / 8], bi % 8)
  }

  function SetBit(b: Block, bi: nat): (r: Block)
    requires |b| == BSIZE && bi < BPB
    ensures |r| == BSIZE
  {
    FlippedByte(b[bi / 8], bi % 8);
    b[bi / 8 := OrBit(b[bi / 8], bi % 8)]
  }

  function ClearBit(b: Block, bi: nat): (r: Block)
    requires |b| == BSIZE && bi < BPB
    ensures |r| == BSIZE
  {
    FlippedByte(b[bi / 8], bi % 8);
    b[bi / 8 := AndNotBit(b[bi / 8], bi % 8)]
  }

  /** Setting or clearing a bit changes that bit and no other. */
  lemma BitFlipped(b: Block, bi: nat, bj: nat)
    requires |b| == BSIZE && bi < BPB && bj < BPB
    ensures Bit(SetBit(b, bi), bj) <==> bj == bi || Bit(b, bj)
    ensures Bit(ClearBit(b, bi), bj) <==> bj != bi && Bit(b, bj)
  {
    hide BitOf, OrBit, AndNotBit;
    if bi / 8 == bj / 8 {
      assert bi % 8 == bj % 8 <==> bi == bj;
      BitOfOr(b[bi / 8], bi % 8, bj % 8);
      BitOfAndNot(b[bi / 8], bi % 8, bj % 8);
    }
  }

  // ----------------------------------------------------------------- words

  /** The i-th uint of a block, least significant byte first. */
  function Word(b: Block, i: nat): (w: nat)
    requires |b| == BSIZE && i < NINDIRECT
    ensures w < UINT
  {
    (b[4 * i] as int) + 0x100 * (b[4 * i + 1] as int) + 0x1_0000 * (b[4 * i + 2] as int) + 0x100_0000 * (b[4 * i + 3] as int)
  }

  function PutWord(b: Block, i: nat, w: nat): (r: Block)
    requires |b| == BSIZE && i < NINDIRECT && w < UINT
    ensures |r| == BSIZE
  {
    b[4 * i := w % 0x100][4 * i + 1 := w / 0x100 % 0x100]
     [4 * i + 2 := w / 0x1_0000 % 0x100][4 * i + 3 := w / 0x100_0000 % 0x100]
  }

  lemma BytesOfWord(w: nat)
    requires w < UINT
    ensures w == w % 0x100 + 0x100 * (w / 0x100 % 0x100) + 0x1_0000 * (w / 0x1_0000 % 0x100) + 0x100_0000 * (w / 0x100_0000 % 0x100)
  {
    var a, b := w / 0x100, w / 0x1_0000;
    assert a / 0x100 == b && b / 0x100 == w / 0x100_0000 < 0x100;
  }

  /** A word reads back as written, and the other words stay. */
  lemma WordPut(b: Block, i: nat, w: nat, j: nat)
    requires |b| == BSIZE && i < NINDIRECT && w < UINT && j < NINDIRECT
    ensures Word(PutWord(b, i, w), j) == if i == j then w else Word(b, j)
  {
    if i == j {
      BytesOfWord(w);
    }
  }

  lemma ZeroWord(i: nat)
    requires i < NINDIRECT
    ensures Word(Zeros(), i) == 0
  {
  }

  function PutWords(b: Block, base: nat, ws: seq<nat>): (r: Block)
    requires |b| == BSIZE && base + |ws| <= NINDIRECT
    requires forall i :: 0 <= i < |ws| ==> ws[i] < UINT
    ensures |r| == BSIZE
  {
    if ws == [] then b
    else PutWord(PutWords(b, base, ws[..|ws| - 1]), base + |ws| - 1, ws[|ws| - 1])
  }

  lemma {:induction false} WordsPut(b: Block, base: nat, ws: seq<nat>, j: nat)
    requires |b| == BSIZE && base + |ws| <= NINDIRECT && j < NINDIRECT
    requires forall i :: 0 <= i < |ws| ==> ws[i] < UINT
    ensures Word(PutWords(b, base, ws), j) ==
            if base <= j < base + |ws| then ws[j - base] else Word(b, j)
  {
    hide Word, PutWord;
    if ws != [] {
      var k := |ws| - 1;
      WordsPut(b, base, ws[..k], j);
      WordPut(PutWords(b, base, ws[..k]), base + k, ws[k], j);
    }
  }

  // ---------------------------------------------------------------- inodes

  /** The fields that an inode has on disk; shorts are kept as 0..65535. */
  datatype Inode = Inode(kind: nat, major: nat, minor: nat, nlink: nat, size: nat, addrs: seq<nat>) {
    ghost predicate Valid() {
      && kind < 0x1_0000 && major < 0x1_0000 && minor < 0x1_0000 && nlink < 0x1_0000 && size < UINT
      && |addrs| == NDIRECT + 1
      && forall k :: 0 <= k <= NDIRECT ==> addrs[k] < UINT
    }

    /** struct dinode as uints. */
    function Words(): (ws: seq<nat>)
      ensures |ws| == 3 + |addrs|
    {
      var w0: nat := kind + 0x1_0000 * major;
      var w1: nat := minor + 0x1_0000 * nlink;
      [w0, w1, size] + addrs
    }
  }

  /** The n uints from position `base` on. */
  function AddrsAt(b: Block, base: nat, n: nat): (a: seq<nat>)
    requires |b| == BSIZE && base + n <= NINDIRECT
    ensures |a| == n && forall k :: 0 <= k < n ==> a[k] == Word(b, base + k)
  {
    if n == 0 then [] else AddrsAt(b, base, n - 1) + [Word(b, base + n - 1)]
  }

  function DinodeAt(b: Block, s: nat): Inode
    requires |b| == BSIZE && s < IPB
  {
    var w0, w1 := Word(b, 16 * s), Word(b, 16 * s + 1);
    Inode(w0 % 0x1_0000, w0 / 0x1_0000, w1 % 0x1_0000, w1 / 0x1_0000, Word(b, 16 * s + 2),
          AddrsAt(b, 16 * s + 3, NDIRECT + 1))
  }

  function PutDinode(b: Block, s: nat, ino: Inode): (r: Block)
    requires |b| == BSIZE && s < IPB && ino.Valid()
    ensures |r| == BSIZE
  {
    PutWords(b, 16 * s, ino.Words())
  }

  /** struct dinode, byte by byte: type, major, minor and nlink are shorts, then size
      and the addresses, least significant byte first. */
  lemma DinodeLayout(b: Block, s: nat)
    requires |b| == BSIZE && s < IPB
    ensures var d, o := DinodeAt(b, s), 64 * s;
      && d.kind == (b[o] as int) + 0x100 * (b[o + 1] as int) && d.major == (b[o + 2] as int) + 0x100 * (b[o + 3] as int)
      && d.minor == (b[o + 4] as int) + 0x100 * (b[o + 5] as int) && d.nlink == (b[o + 6] as int) + 0x100 * (b[o + 7] as int)
      && d.size == (b[o + 8] as int) + 0x100 * (b[o + 9] as int) + 0x1_0000 * (b[o + 10] as int) + 0x100_0000 * (b[o + 11] as int)
      && |d.addrs| == NDIRECT + 1
      && forall k :: 0 <= k <= NDIRECT ==> d.addrs[k] == Word(b, 16 * s + 3 + k)
  {
    Halves(b[64 * s], b[64 * s + 1], b[64 * s + 2], b[64 * s + 3]);
    Halves(b[64 * s + 4], b[64 * s + 5], b[64 * s + 6], b[64 * s + 7]);
  }

  lemma Halves(a: byte, b: byte, c: byte, d: byte)
    ensures var w := (a as int) + 0x100 * (b as int) + 0x1_0000 * (c as int) + 0x100_0000 * (d as int);
      w % 0x1_0000 == (a as int) + 0x100 * (b as int) && w / 0x1_0000 == (c as int) + 0x100 * (d as int)
  {
  }

  /** iupdate() followed by ilock() gives back the inode, and leaves the other
      inodes of the block alone. */
  lemma DinodePut(b: Block, s: nat, ino: Inode, t: nat)
    requires |b| == BSIZE && s < IPB && ino.Valid() && t < IPB
    ensures DinodeAt(PutDinode(b, s, ino), t) == if s == t then ino else DinodeAt(b, t)
  {
    hide Word, PutWords;
    var r := PutDinode(b, s, ino);
    WordsPut(b, 16 * s, ino.Words(), 16 * t);
    WordsPut(b, 16 * s, ino.Words(), 16 * t + 1);
    WordsPut(b, 16 * s, ino.Words(), 16 * t + 2);
    var ino' := if s == t then ino else DinodeAt(b, t);
    forall k | 0 <= k <= NDIRECT
      ensures DinodeAt(r, t).addrs[k] == ino'.addrs[k]
    {
      WordsPut(b, 16 * s, ino.Words(), 16 * t + 3 + k);
    }
    assert DinodeAt(r, t).addrs == ino'.addrs;
  }
}
