// The copy-on-write disk images of QEMU (src/host/qemu-neo1973/block-cow.c): a file with a header,
// a bitmap of the sectors it holds, and their data.
module CowDisk {
  import opened Wrappers
  import opened Folding

  type Byte = bv8

  // ----- bits -----

  function Mask(k: nat): Byte
    requires k < 8
  {
    if k == 0 then 1 else if k == 1 then 2 else if k == 2 then 4 else if k == 3 then 8
    else if k == 4 then 16 else if k == 5 then 32 else if k == 6 then 64 else 128
  }

  predicate HasBit(b: Byte, k: nat)
    requires k < 8
  {
    b & Mask(k) != 0
  }

  function WithBit(b: Byte, k: nat): Byte
    requires k < 8
  {
    b | Mask(k)
  }

  lemma BitSet(b: Byte, k: nat, j: nat)
    requires k < 8 && j < 8
    ensures HasBit(WithBit(b, k), j) <==> HasBit(b, j) || j == k
  {}

  // ----- the layout of the file -----

  // The size of the header, and how many sectors the disk has.
  datatype Layout = Layout(header: nat, total: nat)

  // cow_bitmap_size, which includes the header
  function BitmapEnd(l: Layout): nat { l.header + (l.total + 7) / 8 }

  // cow_sectors_offset: the next multiple of the sector size
  function DataStart(l: Layout): nat { (BitmapEnd(l) + 512 - 1) / 512 * 512 }

  // Where sector s is in the file.
  function Offset(l: Layout, s: nat): nat { DataStart(l) + s * 512 }

  lemma LayoutApart(l: Layout, s: nat)
    ensures BitmapEnd(l) <= DataStart(l) <= Offset(l, s)
    ensures s < l.total ==> l.header + s / 8 < BitmapEnd(l)
    ensures 0 <= 8 * (BitmapEnd(l) - l.header) - l.total < 8
    ensures DataStart(l) % 512 == 0 && DataStart(l) < BitmapEnd(l) + 512 && Offset(l, s + 1) == Offset(l, s) + 512
  {}

  // Bit k counts from the low end.
  lemma BitIs(b: Byte, k: nat)
    requires k < 8
    ensures HasBit(b, k) <==> (b >> k) % 2 == 1
  {
    LowBits(b);
    HighBits(b);
  }

  lemma LowBits(b: Byte)
    ensures (b & 1 != 0 <==> (b >> 0) % 2 == 1) && (b & 2 != 0 <==> (b >> 1) % 2 == 1)
    ensures (b & 4 != 0 <==> (b >> 2) % 2 == 1) && (b & 8 != 0 <==> (b >> 3) % 2 == 1)
  {}

  lemma HighBits(b: Byte)
    ensures (b & 16 != 0 <==> (b >> 4) % 2 == 1) && (b & 32 != 0 <==> (b >> 5) % 2 == 1)
    ensures (b & 64 != 0 <==> (b >> 6) % 2 == 1) && (b & 128 != 0 <==> (b >> 7) % 2 == 1)
  {}

  // ----- files -----

  function Zeros(n: nat): (z: seq<Byte>)
    ensures |z| == n
  {
    seq(n, i => 0)
  }

  // The file after a write at a position, which may be behind its end.
  function Patched(file: seq<Byte>, at: nat, data: seq<Byte>): (r: seq<Byte>) {
    var f := if |file| < at then file + Zeros(at - |file|) else file;
    f[..at] + data + if at + |data| < |f| then f[at + |data|..] else []
  }

  lemma PatchedAt(file: seq<Byte>, at: nat, data: seq<Byte>)
    ensures var r := Patched(file, at, data);
            && |r| >= |file| && |r| >= at + |data| && r[at..at + |data|] == data
            && forall i | 0 <= i < |file| && (i < at || i >= at + |data|) :: r[i] == file[i]
  {}

  // ----- what the disk holds -----

  // What is there where the image has nothing: the base image, or zeroes.
  type Base = s: seq<seq<Byte>> | forall k | 0 <= k < |s| :: |s[k]| == 512

  function BaseSector(base: Option<Base>, s: nat): (r: seq<Byte>)
    requires base.Some? ==> s < |base.value|
    ensures |r| == 512
  {
    if base.Some? then base.value[s] else Zeros(512)
  }

  predicate IsSet(l: Layout, file: seq<Byte>, s: nat)
    requires l.header + s / 8 < |file|
  {
    HasBit(file[l.header + s / 8], s % 8)
  }

  // The bitmap and all sectors it claims are in the file.
  ghost predicate FileOk(l: Layout, file: seq<Byte>) {
    && BitmapEnd(l) <= |file|
    && forall s: nat {:trigger SectorOk(l, file, s)} | s < l.total :: SectorOk(l, file, s)
  }

  ghost predicate SectorOk(l: Layout, file: seq<Byte>, s: nat)
    requires BitmapEnd(l) <= |file| && s < l.total
  {
    IsSet(l, file, s) ==> Offset(l, s) + 512 <= |file|
  }

  ghost function Sector(l: Layout, file: seq<Byte>, base: Option<Base>, s: nat): (r: seq<Byte>)
    requires FileOk(l, file) && s < l.total && (base.Some? ==> |base.value| >= l.total)
    ensures |r| == 512
  {
    assert SectorOk(l, file, s);
    if IsSet(l, file, s) then file[Offset(l, s)..Offset(l, s) + 512] else BaseSector(base, s)
  }

  // All sectors.
  ghost function DiskOf(l: Layout, file: seq<Byte>, base: Option<Base>): (d: seq<seq<Byte>>)
    requires FileOk(l, file) && (base.Some? ==> |base.value| >= l.total)
    ensures |d| == l.total && forall s | 0 <= s < l.total :: d[s] == Sector(l, file, base, s)
  {
    seq(l.total, s requires 0 <= s < l.total => Sector(l, file, base, s))
  }

  // Sectors in a row, one by one.
  function Joined(d: seq<seq<Byte>>, s: nat, n: nat): seq<Byte>
    requires s + n <= |d|
  {
    if n == 0 then [] else Joined(d, s, n - 1) + d[s + n - 1]
  }

  lemma {:induction false} JoinedSplit(d: seq<seq<Byte>>, s: nat, n: nat, m: nat)
    requires s + n + m <= |d|
    ensures Joined(d, s, n + m) == Joined(d, s, n) + Joined(d, s + n, m)
    decreases m
  {
    if m > 0 {
      JoinedSplit(d, s, n, m - 1);
      assert Joined(d, s, n + m) == Joined(d, s, n + m - 1) + d[s + n + m - 1];
    }
  }

  lemma JoinedGrows(d: seq<seq<Byte>>, s: nat, n: nat, m: nat, a: seq<Byte>, b: seq<Byte>)
    requires s + n + m <= |d| && a == Joined(d, s, n) && b == Joined(d, s + n, m)
    ensures a + b == Joined(d, s, n + m)
  {
    JoinedSplit(d, s, n, m);
  }

  // A run of sectors that are in the file is one piece of it.
  lemma {:induction false} RunInFile(file: seq<Byte>, at: nat, d: seq<seq<Byte>>, s: nat, n: nat)
    requires s + n <= |d| && (n > 0 ==> at + n * 512 <= |file|)
    requires forall i: nat | i < n :: at + i * 512 + 512 <= |file| && d[s + i] == file[at + i * 512..at + i * 512 + 512]
    ensures n > 0 ==> file[at..at + n * 512] == Joined(d, s, n)
  {
    if n > 0 {
      RunInFile(file, at, d, s, n - 1);
      var b, c := at + (n - 1) * 512, at + n * 512;
      assert file[at..c] == file[at..b] + file[b..c];
      assert d[s + (n - 1)] == file[b..c];
      if n == 1 {
        assert file[at..b] == Joined(d, s, 0);
      }
    }
  }

  // A run of sectors that are not comes from the base.
  ghost function BaseSectors(base: Option<Base>, s: nat, n: nat): seq<Byte>
    requires base.Some? ==> s + n <= |base.value|
  {
    if n == 0 then [] else BaseSectors(base, s, n - 1) + BaseSector(base, s + n - 1)
  }

  lemma {:induction false} RunInBase(base: Option<Base>, d: seq<seq<Byte>>, s: nat, n: nat)
    requires s + n <= |d| && (base.Some? ==> s + n <= |base.value|)
    requires forall k | s <= k < s + n :: d[k] == BaseSector(base, k)
    ensures BaseSectors(base, s, n) == Joined(d, s, n)
  {
    if n > 0 {
      RunInBase(base, d, s, n - 1);
    }
  }

  lemma RunIs(l: Layout, file: seq<Byte>, base: Option<Base>, s: nat, n: nat, changed: bool)
    requires FileOk(l, file) && (base.Some? ==> |base.value| >= l.total) && n > 0 && s + n <= l.total
    requires forall k: nat | s <= k < s + n :: IsSet(l, file, k) <==> changed
    ensures changed ==> Offset(l, s) + n * 512 <= |file|
    ensures changed ==> file[Offset(l, s)..Offset(l, s) + n * 512] == Joined(DiskOf(l, file, base), s, n)
    ensures !changed ==> BaseSectors(base, s, n) == Joined(DiskOf(l, file, base), s, n)
  {
    if changed {
      RunIsInFile(l, file, base, s, n);
    } else {
      RunInBase(base, DiskOf(l, file, base), s, n);
    }
  }

  lemma RunIsInFile(l: Layout, file: seq<Byte>, base: Option<Base>, s: nat, n: nat)
    requires FileOk(l, file) && (base.Some? ==> |base.value| >= l.total) && n > 0 && s + n <= l.total
    requires forall k: nat | s <= k < s + n :: IsSet(l, file, k)
    ensures Offset(l, s) + n * 512 <= |file|
    ensures file[Offset(l, s)..Offset(l, s) + n * 512] == Joined(DiskOf(l, file, base), s, n)
  {
    var d, at := DiskOf(l, file, base), Offset(l, s);
    forall i: nat | i < n ensures at + i * 512 + 512 <= |file| && d[s + i] == file[at + i * 512..at + i * 512 + 512] {
      InRun(l, file, base, s, i);
    }
    InRun(l, file, base, s, n - 1);
    assert at + n * 512 == at + (n - 1) * 512 + 512;
    RunInFile(file, at, d, s, n);
  }

  lemma InRun(l: Layout, file: seq<Byte>, base: Option<Base>, s: nat, i: nat)
    requires FileOk(l, file) && (base.Some? ==> |base.value| >= l.total) && s + i < l.total && IsSet(l, file, s + i)
    ensures Offset(l, s) + i * 512 + 512 <= |file|
    ensures Sector(l, file, base, s + i) == file[Offset(l, s) + i * 512..Offset(l, s) + i * 512 + 512]
  {
    assert SectorOk(l, file, s + i);
    assert Offset(l, s + i) == Offset(l, s) + i * 512;
  }

  // ----- the driver -----

  class Cow {
    const layout: Layout
    const base: Option<Base>
    var file: seq<Byte>

    ghost predicate Valid()
      reads this
    {
      FileOk(layout, file) && (base.Some? ==> |base.value| >= layout.total)
    }

    // What the disk holds, sector by sector.
    ghost function Disk(): seq<seq<Byte>>
      requires Valid()
      reads this
    {
      DiskOf(layout, file, base)
    }

    // cow_create and cow_open: a header, and an empty bitmap
    constructor (header: seq<Byte>, total: nat, base: Option<Base>)
      requires base.Some? ==> |base.value| >= total
      ensures Valid() && layout == Layout(|header|, total) && this.base == base
      ensures forall s | 0 <= s < total :: Disk()[s] == BaseSector(base, s)
      ensures file[..|header|] == header && |file| == |header| + (total + 7) / 8
      ensures forall i | |header| <= i < |file| :: file[i] == 0
    {
      layout, this.base := Layout(|header|, total), base;
      file := header + Zeros((total + 7) / 8);
      new;
      NothingSet(layout, file);
    }

    // is_changed
    method IsChanged(sector: nat, nb: nat) returns (changed: bool, same: nat)
      requires Valid() && sector + nb <= layout.total
      ensures nb == 0 ==> !changed && same == 0
      ensures nb > 0 ==> 1 <= same <= nb && forall k: nat | sector <= k < sector + same :: IsSet(layout, file, k) <==> changed
      ensures 0 < same < nb ==> (IsSet(layout, file, sector + same) <==> !changed)
    {
      if nb == 0 {
        return false, 0;
      }
      changed := IsSet(layout, file, sector);
      same := 1;
      while same < nb
        invariant 1 <= same <= nb
        invariant forall k: nat | sector <= k < sector + same :: IsSet(layout, file, k) <==> changed
      {
        if IsSet(layout, file, sector + same) != changed {
          break;
        }
        same := same + 1;
      }
    }

    // The disk holds d; this is left folded up until an Unfold is in sight.
    ghost predicate Holds(d: seq<seq<Byte>>)
      reads this
    {
      forall k {:trigger Unfold(k)} :: Unfold(k) ==> Valid() && d == Disk()
    }

    // cow_read: run by run, what the sectors hold one by one
    method Read(sector: nat, nb: nat) returns (ok: bool, buf: seq<Byte>)
      requires Valid() && sector + nb <= layout.total
      ensures ok && buf == Joined(Disk(), sector, nb)
    {
      ok, buf := ReadRuns(sector, nb, Disk());
    }

    method ReadRuns(sector: nat, nb: nat, ghost d: seq<seq<Byte>>) returns (ok: bool, buf: seq<Byte>)
      requires Holds(d) && sector + nb <= layout.total == |d|
      ensures ok && buf == Joined(d, sector, nb)
    {
      buf, ok := [], true;
      var s, left := sector, nb;
      ghost var done: nat := 0;
      while left > 0
        invariant ok && 0 <= left && done + left == nb && s == sector + done
        invariant buf == Joined(d, sector, done)
      {
        var n, data := ReadRun(s, left, d);
        if data.None? {
          return false, buf;
        }
        JoinedGrows(d, sector, done, n, buf, data.value);
        buf := buf + data.value;
        left := left - n;
        s := s + n;
        done := done + n;
      }
    }

    // one run: from the file, where the read may come short, or from the base
    method ReadRun(s: nat, left: nat, ghost d: seq<seq<Byte>>) returns (n: nat, data: Option<seq<Byte>>)
      requires Holds(d) && left > 0 && s + left <= layout.total == |d|
      ensures 0 < n <= left && data == Some(Joined(d, s, n))
    {
      assert Unfold(0);
      var changed;
      changed, n := IsChanged(s, left);
      RunIs(layout, file, base, s, n, changed);
      if changed {
        var at := Offset(layout, s);
        var piece := file[at..if at + n * 512 <= |file| then at + n * 512 else |file|];
        data := if |piece| == n * 512 then Some(piece) else None;
      } else {
        var piece := ReadBase(s, n);
        data := Some(piece);
      }
    }

    // bdrv_read from the base image, or zeroes
    method ReadBase(sector: nat, n: nat) returns (data: seq<Byte>)
      requires base.Some? ==> sector + n <= |base.value|
      ensures data == BaseSectors(base, sector, n)
    {
      data := [];
      for i := 0 to n
        invariant data == BaseSectors(base, sector, i)
      {
        data := data + BaseSector(base, sector + i);
      }
    }

    // cow_write: the sectors hold the data, all others what they held before
    method Write(sector: nat, buf: seq<Byte>, nb: nat)
      requires Valid() && sector + nb <= layout.total && |buf| == nb * 512
      modifies this
      ensures Valid() && Disk() == Overlaid(old(Disk()), sector, buf, nb)
      ensures file[..layout.header] == old(file)[..layout.header]
    {
      ghost var was := file;
      file := Patched(file, Offset(layout, sector), buf);
      ghost var patched := file;
      WriteKeeps(layout, was, sector, nb, buf);
      for i := 0 to nb
        invariant |file| == |patched|
        invariant forall j | 0 <= j < |file| && !(layout.header <= j < BitmapEnd(layout)) :: file[j] == patched[j]
        invariant forall k: nat | k < layout.total ::
          IsSet(layout, file, k) <==> IsSet(layout, patched, k) || sector <= k < sector + i
      {
        SetBit(sector + i);
      }
      WriteDone(layout, was, file, base, sector, nb, buf);
    }

    // cow_set_bit
    method SetBit(s: nat)
      requires s < layout.total && BitmapEnd(layout) <= |file|
      modifies this
      ensures |file| == |old(file)|
      ensures forall j | 0 <= j < |file| && !(layout.header <= j < BitmapEnd(layout)) :: file[j] == old(file)[j]
      ensures forall k: nat | k < layout.total :: IsSet(layout, file, k) <==> IsSet(layout, old(file), k) || k == s
    {
      var i := layout.header + s / 8;
      forall k: nat | k < layout.total && k / 8 == s / 8
        ensures HasBit(WithBit(file[i], s % 8), k % 8) <==> HasBit(file[i], k % 8) || k == s
      {
        BitSet(file[i], s % 8, k % 8);
      }
      file := file[i := WithBit(file[i], s % 8)];
    }
  }

  lemma NothingSet(l: Layout, file: seq<Byte>)
    requires BitmapEnd(l) <= |file| && forall i | l.header <= i < BitmapEnd(l) :: file[i] == 0
    ensures FileOk(l, file) && forall s: nat | s < l.total :: !IsSet(l, file, s)
  {
    forall s: nat | s < l.total ensures !IsSet(l, file, s) && SectorOk(l, file, s) {
      NoBit(s % 8);
    }
  }

  lemma NoBit(k: nat)
    requires k < 8
    ensures !HasBit(0, k)
  {}

  // ----- writes -----

  // Data of sector k of a write.
  function Piece(sector: nat, buf: seq<Byte>, nb: nat, k: nat): (r: seq<Byte>)
    requires |buf| == nb * 512 && sector <= k < sector + nb
    ensures |r| == 512
  {
    buf[(k - sector) * 512..(k - sector + 1) * 512]
  }

  function Overlaid(disk: seq<seq<Byte>>, sector: nat, buf: seq<Byte>, nb: nat): (r: seq<seq<Byte>>)
    requires |buf| == nb * 512
    ensures |r| == |disk|
  {
    seq(|disk|, k requires 0 <= k < |disk| => if sector <= k < sector + nb then Piece(sector, buf, nb, k) else disk[k])
  }

  // Data go where neither the header and the bitmap nor other sectors are.
  lemma WriteKeeps(l: Layout, file: seq<Byte>, sector: nat, nb: nat, buf: seq<Byte>)
    requires FileOk(l, file) && sector + nb <= l.total && |buf| == nb * 512
    ensures var r := Patched(file, Offset(l, sector), buf);
            && |r| >= |file| && r[..BitmapEnd(l)] == file[..BitmapEnd(l)]
            && (forall k: nat | k < l.total :: IsSet(l, r, k) <==> IsSet(l, file, k))
            && (forall k: nat | k < l.total && IsSet(l, file, k) && !(sector <= k < sector + nb) ::
                Offset(l, k) + 512 <= |file|
                && r[Offset(l, k)..Offset(l, k) + 512] == file[Offset(l, k)..Offset(l, k) + 512])
            && (forall k: nat | sector <= k < sector + nb ::
                Offset(l, k) + 512 <= |r|
                && r[Offset(l, k)..Offset(l, k) + 512] == Piece(sector, buf, nb, k))
  {
    var at := Offset(l, sector);
    var r := Patched(file, at, buf);
    PatchedAt(file, at, buf);
    LayoutApart(l, sector);
    assert forall i | 0 <= i < BitmapEnd(l) :: r[i] == file[i];
    forall k: nat | k < l.total ensures IsSet(l, r, k) <==> IsSet(l, file, k) {
      LayoutApart(l, k);
    }
    forall k: nat | k < l.total && IsSet(l, file, k) && !(sector <= k < sector + nb)
      ensures Offset(l, k) + 512 <= |file|
      ensures r[Offset(l, k)..Offset(l, k) + 512] == file[Offset(l, k)..Offset(l, k) + 512]
    {
      assert SectorOk(l, file, k);
      OtherSector(l, sector, nb, k);
    }
    forall k: nat | sector <= k < sector + nb
      ensures Offset(l, k) + 512 <= |r|
      ensures r[Offset(l, k)..Offset(l, k) + 512] == Piece(sector, buf, nb, k)
    {
      WrittenPiece(l, r, sector, nb, buf, k);
    }
  }

  lemma WrittenPiece(l: Layout, r: seq<Byte>, sector: nat, nb: nat, buf: seq<Byte>, k: nat)
    requires |buf| == nb * 512 && sector <= k < sector + nb
    requires Offset(l, sector) + |buf| <= |r| && r[Offset(l, sector)..Offset(l, sector) + |buf|] == buf
    ensures Offset(l, k) + 512 <= |r| && r[Offset(l, k)..Offset(l, k) + 512] == Piece(sector, buf, nb, k)
  {
    var at, i := Offset(l, sector), (k - sector) * 512;
    assert Offset(l, k) == at + i && i + 512 <= |buf|;
    SliceOfSlice(r, at, |buf|, i, 512);
  }

  lemma SliceOfSlice<T>(s: seq<T>, at: nat, n: nat, i: nat, m: nat)
    requires at + n <= |s| && i + m <= n
    ensures s[at..at + n][i..i + m] == s[at + i..at + i + m]
  {
    var t, u := s[at..at + n][i..i + m], s[at + i..at + i + m];
    forall k: nat | k < m ensures t[k] == u[k] {
      assert t[k] == s[at..at + n][i + k] == s[at + i + k];
    }
  }

  lemma OtherSector(l: Layout, sector: nat, nb: nat, k: nat)
    requires !(sector <= k < sector + nb)
    ensures Offset(l, k) + 512 <= Offset(l, sector) || Offset(l, k) >= Offset(l, sector) + nb * 512
  {
    if k < sector {
      assert (k + 1) * 512 <= sector * 512;
    } else {
      assert k * 512 >= (sector + nb) * 512;
    }
  }

  ghost predicate Written(l: Layout, was: seq<Byte>, now: seq<Byte>, sector: nat, nb: nat, buf: seq<Byte>)
    requires FileOk(l, was) && sector + nb <= l.total && |buf| == nb * 512
  {
    var r := Patched(was, Offset(l, sector), buf);
    && |now| == |r| >= BitmapEnd(l)
    && (forall j | 0 <= j < |now| && !(l.header <= j < BitmapEnd(l)) :: now[j] == r[j])
    && (forall k: nat | k < l.total :: IsSet(l, now, k) <==> IsSet(l, r, k) || sector <= k < sector + nb)
  }

  lemma WriteDone(l: Layout, was: seq<Byte>, now: seq<Byte>, base: Option<Base>, sector: nat, nb: nat, buf: seq<Byte>)
    requires FileOk(l, was) && sector + nb <= l.total && |buf| == nb * 512
    requires Written(l, was, now, sector, nb, buf) && (base.Some? ==> |base.value| >= l.total)
    ensures FileOk(l, now) && now[..l.header] == was[..l.header]
    ensures DiskOf(l, now, base) == Overlaid(DiskOf(l, was, base), sector, buf, nb)
  {
    var r := Patched(was, Offset(l, sector), buf);
    WriteKeeps(l, was, sector, nb, buf);
    forall j | 0 <= j < l.header ensures now[j] == was[j] {
      assert r[j] == r[..BitmapEnd(l)][j];
    }
    forall k: nat | k < l.total ensures SectorOk(l, now, k) {
      assert SectorOk(l, was, k);
    }
    forall k: nat | k < l.total
      ensures Sector(l, now, base, k) == if sector <= k < sector + nb then Piece(sector, buf, nb, k) else Sector(l, was, base, k)
    {
      SectorAfter(l, was, now, base, sector, nb, buf, k);
    }
  }

  lemma SectorAfter(l: Layout, was: seq<Byte>, now: seq<Byte>, base: Option<Base>, sector: nat, nb: nat, buf: seq<Byte>, k: nat)
    requires FileOk(l, was) && FileOk(l, now) && sector + nb <= l.total && |buf| == nb * 512 && k < l.total
    requires Written(l, was, now, sector, nb, buf) && (base.Some? ==> |base.value| >= l.total)
    ensures Sector(l, now, base, k) == if sector <= k < sector + nb then Piece(sector, buf, nb, k) else Sector(l, was, base, k)
  {
    var r := Patched(was, Offset(l, sector), buf);
    WriteKeeps(l, was, sector, nb, buf);
    LayoutApart(l, k);
    assert SectorOk(l, now, k) && SectorOk(l, was, k);
    var a := Offset(l, k);
    if IsSet(l, now, k) {
      SameSlice(now, r, a, a + 512, BitmapEnd(l), l.header);
    }
  }

  lemma SameSlice(s: seq<Byte>, t: seq<Byte>, a: nat, b: nat, end: nat, start: nat)
    requires |s| == |t| && end <= a <= b <= |s|
    requires forall j | 0 <= j < |s| && !(start <= j < end) :: s[j] == t[j]
    ensures s[a..b] == t[a..b]
  {}

  // ----- runs of writes -----

  datatype Request = Request(sector: nat, buf: seq<Byte>, nb: nat)

  predicate RequestOk(r: Request) { |r.buf| == r.nb * 512 }

  function Run(disk: seq<seq<Byte>>, writes: seq<Request>): (r: seq<seq<Byte>>)
    requires forall j | 0 <= j < |writes| :: RequestOk(writes[j])
    ensures |r| == |disk|
  {
    if writes == [] then disk
    else
      var w := writes[|writes| - 1];
      assert RequestOk(w);
      Overlaid(Run(disk, writes[..|writes| - 1]), w.sector, w.buf, w.nb)
  }

  // After any run of writes, a sector holds what was written to it last, or what it held before.
  lemma {:induction false} LastWriteWins(disk: seq<seq<Byte>>, writes: seq<Request>, k: nat, i: nat)
    requires k < |disk| && i <= |writes| && forall j | 0 <= j < |writes| :: RequestOk(writes[j])
    requires forall j | i <= j < |writes| :: !(writes[j].sector <= k < writes[j].sector + writes[j].nb)
    requires i > 0 ==> writes[i - 1].sector <= k < writes[i - 1].sector + writes[i - 1].nb
    ensures Run(disk, writes)[k] == if i == 0 then disk[k] else Piece(writes[i - 1].sector, writes[i - 1].buf, writes[i - 1].nb, k)
  {
    var n := |writes| - 1;
    if i <= n {
      LastWriteWins(disk, writes[..n], k, i);
    }
  }
}
