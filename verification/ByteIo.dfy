/** bdrv_pread_em and bdrv_pwrite_em: bytes over a device that reads and writes whole sectors. */
module ByteIo {

  type Byte = bv8

  const SECTOR := 512
  const EIO := 5

  /** `src` written over `dst` from index `at` on. */
  function Spliced(dst: seq<Byte>, at: nat, src: seq<Byte>): (r: seq<Byte>)
    requires at + |src| <= |dst|
    ensures |r| == |dst|
    ensures forall i :: 0 <= i < |dst| ==> r[i] == if at <= i < at + |src| then src[i - at] else dst[i]
  {
    dst[..at] + src + dst[at + |src|..]
  }

  /** Writing a sector back with some of its bytes replaced. */
  lemma SplicedInside(dst: seq<Byte>, start: nat, n: nat, at: nat, src: seq<Byte>)
    requires start + n <= |dst| && at + |src| <= n
    ensures Spliced(dst, start, Spliced(dst[start..start + n], at, src)) == Spliced(dst, start + at, src)
  {
  }

  lemma SliceOfSlice(d: seq<Byte>, start: nat, n: nat, a: nat, b: nat)
    requires start + n <= |d| && a <= b <= n
    ensures d[start..start + n][a..b] == d[start + a..start + b]
  {
    var x, y := d[start..start + n][a..b], d[start + a..start + b];
    forall i | 0 <= i < |x| ensures x[i] == y[i] {
      assert d[start..start + n][a + i] == d[start + (a + i)];
    }
  }

  /** The first m bytes of buf have been written. */
  predicate Upto(d: seq<Byte>, d': seq<Byte>, offset: nat, buf: seq<Byte>, m: nat) {
    && m <= |buf| && |d'| == |d|
    && forall i :: 0 <= i < |d| ==> d'[i] == if offset <= i < offset + m then buf[i - offset] else d[i]
  }

  lemma UptoAll(d: seq<Byte>, d': seq<Byte>, offset: nat, buf: seq<Byte>, m: nat)
    requires Upto(d, d', offset, buf, m)
    ensures m <= |buf| && |d'| == |d|
    ensures forall i :: 0 <= i < |d| ==> d'[i] == if offset <= i < offset + m then buf[i - offset] else d[i]
  {
  }

  /** Bytes up to the next sector boundary, or all of them if the boundary is further away. */
  function Head(offset: nat, count: nat): (len: nat)
    ensures len <= count && offset % SECTOR + len <= SECTOR && (len < count ==> (offset + len) % SECTOR == 0)
    ensures len == 0 && count > 0 ==> offset % SECTOR == 0
  {
    var room := (SECTOR - offset % SECTOR) % SECTOR;
    if room > count then count else room
  }

  class SectorDevice {
    var data: seq<Byte>

    ghost predicate Valid()
      reads this
    {
      |data| % SECTOR == 0
    }

    method ReadSectors(k: nat, n: nat) returns (ok: bool, buf: seq<Byte>)
      ensures ok == (SECTOR * (k + n) <= |data|)
      ensures ok ==> buf == data[SECTOR * k..SECTOR * (k + n)]
    {
      ok := SECTOR * (k + n) <= |data|;
      buf := if ok then data[SECTOR * k..SECTOR * (k + n)] else [];
    }

    method WriteSectors(k: nat, buf: seq<Byte>) returns (ok: bool)
      requires |buf| % SECTOR == 0
      modifies this
      ensures ok == (SECTOR * k + |buf| <= |data|) && |data| == |old(data)|
      ensures data == if ok then Spliced(old(data), SECTOR * k, buf) else old(data)
    {
      ok := SECTOR * k + |buf| <= |data|;
      if ok {
        data := Spliced(data, SECTOR * k, buf);
      }
    }

    /** Bytes of one sector, from `at` on. */
    method Peek(at: nat, len: nat) returns (ok: bool, part: seq<Byte>)
      requires Valid() && at % SECTOR + len <= SECTOR && len > 0
      ensures ok == (at + len <= |data|) && (ok ==> part == data[at..at + len])
    {
      part := [];
      var k, x := at / SECTOR, at % SECTOR;
      SectorEnd(at, len, |data|);
      var tmp;
      ok, tmp := ReadSectors(k, 1);
      if ok {
        SliceOfSlice(data, SECTOR * k, SECTOR, x, x + len);
        part := tmp[x..x + len];
      }
    }

    /** Whole sectors from `at` on. */
    method GetSectors(at: nat, len: nat) returns (ok: bool, buf: seq<Byte>)
      requires Valid() && at % SECTOR == 0 && len % SECTOR == 0
      ensures ok == (at + len <= |data|) && (ok ==> buf == data[at..at + len])
    {
      ok, buf := ReadSectors(at / SECTOR, len / SECTOR);
    }

    /** Reading is a slice of the device's bytes. */
    method Pread(offset: nat, count1: nat) returns (r: int, buf: seq<Byte>)
      requires Valid()
      ensures r == if count1 == 0 || offset + count1 <= |data| then count1 else -EIO
      ensures r >= 0 ==> |buf| == count1 && (count1 > 0 ==> buf == data[offset..offset + count1])
    {
      hide Head;
      buf := [];
      var len := Head(offset, count1);
      if len > 0 {
        var ok, part := Peek(offset, len);
        if !ok {
          return -EIO, [];
        }
        buf := part;
      }
      if len == count1 {
        return count1, buf;
      }
      Aligned(offset, len, count1);
      var ok, rest := ReadOn(offset + len, count1 - len);
      if !ok {
        return -EIO, [];
      }
      JoinedSlices(data, offset, len, count1, buf, rest);
      return count1, buf + rest;
    }

    /** From a sector boundary on: the whole sectors, then part of the last one. */
    method ReadOn(at: nat, count: nat) returns (ok: bool, buf: seq<Byte>)
      requires Valid() && at % SECTOR == 0
      ensures ok == (at + count <= |data|) && (ok ==> buf == data[at..at + count])
    {
      buf := [];
      var mid := count - count % SECTOR;
      ok, buf := GetSectors(at, mid);
      if ok && mid < count {
        var part;
        ok, part := Peek(at + mid, count % SECTOR);
        if ok {
          JoinedSlices(data, at, mid, count, buf, part);
          buf := buf + part;
        }
      }
    }

    /** One sector read, changed in part and written back. */
    method Patch(at: nat, src: seq<Byte>) returns (ok: bool)
      requires Valid() && at % SECTOR + |src| <= SECTOR && src != []
      modifies this
      ensures Valid() && ok == (at + |src| <= |data|) && |data| == |old(data)|
      ensures data == if ok then Spliced(old(data), at, src) else old(data)
    {
      var k, x := at / SECTOR, at % SECTOR;
      SectorEnd(at, |src|, |data|);
      var tmp;
      ok, tmp := ReadSectors(k, 1);
      if ok {
        SplicedInside(data, SECTOR * k, SECTOR, x, src);
        ok := WriteSectors(k, Spliced(tmp, x, src));
      }
    }

    /** Whole sectors from `at` on. */
    method PutSectors(at: nat, src: seq<Byte>) returns (ok: bool)
      requires Valid() && at % SECTOR == 0 && |src| % SECTOR == 0
      modifies this
      ensures Valid() && ok == (at + |src| <= |data|) && |data| == |old(data)|
      ensures data == if ok then Spliced(old(data), at, src) else old(data)
    {
      ok := WriteSectors(at / SECTOR, src);
    }

    /** Writing replaces the device's bytes from offset on; on failure only the first m of them. */
    method Pwrite(offset: nat, buf: seq<Byte>) returns (r: int, ghost m: nat)
      requires Valid()
      modifies this
      ensures Valid() && |data| == |old(data)|
      ensures r == if buf == [] || offset + |buf| <= |data| then |buf| else -EIO
      ensures if r >= 0 then m == |buf| else m < |buf|
      ensures forall i :: 0 <= i < |data| ==>
        data[i] == if offset <= i < offset + m then buf[i - offset] else old(data)[i]
    {
      hide Head, Spliced, Upto;
      m := 0;
      ghost var d := data;
      var len := Head(offset, |buf|);
      UptoNone(d, offset, buf);
      if len > 0 {
        var ok := Patch(offset, buf[..len]);
        if !ok {
          return -EIO, 0;
        }
        UptoNext(d, d, data, offset, buf, 0, len);
        if len == |buf| {
          UptoAll(d, data, offset, buf, len);
          return |buf|, len;
        }
      }
      Aligned(offset, len, |buf|);
      r, m := WriteOn(offset, buf, len, d);
      UptoAll(d, data, offset, buf, m);
    }

    /** What was written reads back. */
    method ReadBack(offset: nat, buf: seq<Byte>) returns (r: int, back: seq<Byte>)
      requires Valid()
      modifies this
      ensures Valid() && (buf == [] || offset + |buf| <= |data| ==> r == |buf| && back == buf)
    {
      var _, m := Pwrite(offset, buf);
      r, back := Pread(offset, |buf|);
    }

    /** From a sector boundary on: the whole sectors, then part of the last one. */
    method WriteOn(offset: nat, buf: seq<Byte>, len: nat, ghost d: seq<Byte>) returns (r: int, ghost m: nat)
      requires Valid() && len <= |buf| && (len < |buf| ==> (offset + len) % SECTOR == 0)
      requires |data| == |d| && Upto(d, data, offset, buf, len)
      modifies this
      ensures Valid() && |data| == |d|
      ensures r == if len == |buf| || offset + |buf| <= |data| then |buf| else -EIO
      ensures Upto(d, data, offset, buf, m) && if r >= 0 then m == |buf| else m < |buf|
    {
      hide Spliced, Upto;
      m := len;
      var n := (|buf| - len) / SECTOR;
      var mid := len + SECTOR * n;
      Middle(offset + len, |buf| - len);
      if n > 0 {
        ghost var d1 := data;
        var ok := PutSectors(offset + len, buf[len..mid]);
        if !ok {
          return -EIO, m;
        }
        UptoNext(d, d1, data, offset, buf, len, mid);
        m := mid;
      }
      if mid < |buf| {
        ghost var d1 := data;
        var ok := Patch(offset + mid, buf[mid..|buf|]);
        if !ok {
          return -EIO, m;
        }
        UptoNext(d, d1, data, offset, buf, mid, |buf|);
        m := |buf|;
      }
      r := |buf|;
    }
  }

  lemma UptoNone(d: seq<Byte>, offset: nat, buf: seq<Byte>)
    ensures Upto(d, d, offset, buf, 0)
  {
  }

  /** A part written after what comes before it. */
  lemma UptoNext(d: seq<Byte>, d1: seq<Byte>, d2: seq<Byte>, offset: nat, buf: seq<Byte>, a: nat, b: nat)
    requires a < b <= |buf| && offset + b <= |d| == |d1| && Upto(d, d1, offset, buf, a)
    requires d2 == Spliced(d1, offset + a, buf[a..b])
    ensures Upto(d, d2, offset, buf, b)
  {
  }

  lemma JoinedSlices(d: seq<Byte>, offset: nat, a: nat, b: nat, x: seq<Byte>, y: seq<Byte>)
    requires a <= b && offset + b <= |d| && |x| == a && (a > 0 ==> x == d[offset..offset + a])
    requires y == d[offset + a..offset + b]
    ensures x + y == d[offset..offset + b]
  {
    if a == 0 {
      assert x == [];
    }
  }

  /** After the head, the rest starts on a sector. */
  lemma Aligned(offset: nat, len: nat, count: nat)
    requires len == Head(offset, count) && (len == 0 || len < count)
    ensures count > 0 ==> (offset + len) % SECTOR == 0
  {
  }

  /** The whole sectors leave less than one, which starts on a sector. */
  lemma Middle(at: nat, count: nat)
    ensures var mid := SECTOR * (count / SECTOR);
      && mid % SECTOR == 0 && mid <= count < mid + SECTOR && (at % SECTOR == 0 ==> (at + mid) % SECTOR == 0)
  {
  }

  /** A byte lies on the device just when its whole sector does. */
  lemma SectorEnd(at: nat, len: nat, size: nat)
    requires size % SECTOR == 0 && len > 0 && at % SECTOR + len <= SECTOR
    ensures at + len <= size <==> SECTOR * (at / SECTOR) + SECTOR <= size
  {
  }
}
