/** The byte layout of the archives the zip sink builds, and their exact size.

    Records follow PKWARE's APPNOTE.TXT: local file headers (4.3.7), central
    directory headers (4.3.12), the ZIP64 end record and its locator (4.3.14,
    4.3.15), the end record (4.3.16) and the ZIP64 extra field (4.5.3), written
    by a seekable writer without comments, custom extras or data descriptors. */
module ZipLayout {
  import opened Basics

  const ZIP64_LIMIT: nat := 0x7FFF_FFFF
  const FILE_COUNT_LIMIT: nat := 0xFFFF
  const MASK32: nat := 0xFFFF_FFFF
  const MASK16: nat := 0xFFFF

  datatype ZipInfo = ZipInfo(filename: string, fileSize: nat, compressSize: nat)

  // A member as it is written: its sizes, checksum and compressed bytes.
  datatype Stored = Stored(info: ZipInfo, crc: nat, stamp: nat, data: seq<byte>)

  predicate Sound(e: Stored) { |e.data| == e.info.compressSize }

  // ----- names ------------------------------------------------------------------

  function Utf8(c: char): seq<byte> {
    var n := c as int;
    if n < 0x80 then [n]
    else if n < 0x800 then [0xC0 + n / 0x40, 0x80 + n % 0x40]
    else if n < 0x10000 then [0xE0 + n / 0x1000, 0x80 + n / 0x40 % 0x40, 0x80 + n % 0x40]
    else [0xF0 + n / 0x40000 % 8, 0x80 + n / 0x1000 % 0x40, 0x80 + n / 0x40 % 0x40, 0x80 + n % 0x40]
  }

  // ASCII names are their own UTF-8 encoding, so both branches of the source agree.
  function NameBytes(name: string): seq<byte> {
    if name == "" then [] else Utf8(name[0]) + NameBytes(name[1..])
  }

  // ----- records ----------------------------------------------------------------

  // A little-endian field of a fixed width.
  function Le(value: nat, width: nat): (b: seq<byte>)
    ensures |b| == width
  {
    if width == 0 then [] else [value % 256] + Le(value / 256, width - 1)
  }

  function Capped(value: nat, zip64: bool): nat { if zip64 then MASK32 else value }

  // The writer reserves the local ZIP64 field before it knows the compressed
  // size, allowing deflate to expand by 5%. 21/20 decides exactly as the
  // floating-point product does: at the boundary the two sides differ by 0.05.
  predicate LocalZip64(info: ZipInfo) { info.fileSize * 21 > ZIP64_LIMIT * 20 }

  predicate LargeSizes(info: ZipInfo) { info.fileSize > ZIP64_LIMIT || info.compressSize > ZIP64_LIMIT }

  function LocalExtra(info: ZipInfo): seq<byte> {
    if LocalZip64(info) then Le(1, 2) + Le(16, 2) + Le(info.fileSize, 8) + Le(info.compressSize, 8) else []
  }

  function LocalHeader(e: Stored): seq<byte> {
    var name, extra := NameBytes(e.info.filename), LocalExtra(e.info);
    var zip64 := LocalZip64(e.info);
    Le(0x04034b50, 4) + Le(if zip64 then 45 else 20, 2) + Le(0, 2) + Le(8, 2) + Le(e.stamp, 4) + Le(e.crc, 4)
    + Le(Capped(e.info.compressSize, zip64), 4) + Le(Capped(e.info.fileSize, zip64), 4)
    + Le(|name|, 2) + Le(|extra|, 2) + name + extra
  }

  function Quads(values: seq<nat>): (b: seq<byte>)
    ensures |b| == 8 * |values|
  {
    if values == [] then [] else Le(values[0], 8) + Quads(values[1..])
  }

  // Central ZIP64 values: the sizes when one is large, then the offset when it is.
  function CentralValues(info: ZipInfo, offset: nat): seq<nat> {
    (if LargeSizes(info) then [info.fileSize, info.compressSize] else [])
    + (if offset > ZIP64_LIMIT then [offset] else [])
  }

  function CentralExtra(info: ZipInfo, offset: nat): seq<byte> {
    var values := CentralValues(info, offset);
    if values == [] then [] else Le(1, 2) + Le(8 * |values|, 2) + Quads(values)
  }

  function CentralHeader(e: Stored, offset: nat): seq<byte> {
    var name, extra := NameBytes(e.info.filename), CentralExtra(e.info, offset);
    var zip64 := LargeSizes(e.info);
    Le(0x02014b50, 4) + Le(20, 2) + Le(if extra == [] then 20 else 45, 2) + Le(0, 2) + Le(8, 2) + Le(e.stamp, 4)
    + Le(e.crc, 4) + Le(Capped(e.info.compressSize, zip64), 4) + Le(Capped(e.info.fileSize, zip64), 4)
    + Le(|name|, 2) + Le(|extra|, 2) + Le(0, 2) + Le(0, 2) + Le(0, 2) + Le(0, 4)
    + Le(Capped(offset, offset > ZIP64_LIMIT), 4) + name + extra
  }

  predicate NeedsZip64End(count: nat, offset: nat, size: nat) {
    count > FILE_COUNT_LIMIT || offset > ZIP64_LIMIT || size > ZIP64_LIMIT
  }

  function EndRecords(count: nat, offset: nat, size: nat): seq<byte> {
    (if NeedsZip64End(count, offset, size) then
       Le(0x06064b50, 4) + Le(44, 8) + Le(45, 2) + Le(45, 2) + Le(0, 4) + Le(0, 4)
       + Le(count, 8) + Le(count, 8) + Le(size, 8) + Le(offset, 8)
       + Le(0x07064b50, 4) + Le(0, 4) + Le(offset + size, 8) + Le(1, 4)
     else [])
    + Le(0x06054b50, 4) + Le(0, 2) + Le(0, 2) + Le(Min(count, MASK16), 2) + Le(Min(count, MASK16), 2)
    + Le(Min(size, MASK32), 4) + Le(Min(offset, MASK32), 4) + Le(0, 2)
  }

  // The members, one after another.
  function Locals(es: seq<Stored>): seq<byte> {
    if es == [] then [] else Locals(es[..|es| - 1]) + LocalHeader(es[|es| - 1]) + es[|es| - 1].data
  }

  // Their directory, each header naming where its member starts.
  function Directory(es: seq<Stored>): seq<byte> {
    if es == [] then []
    else Directory(es[..|es| - 1]) + CentralHeader(es[|es| - 1], |Locals(es[..|es| - 1])|)
  }

  function Archive(es: seq<Stored>): seq<byte> {
    Locals(es) + Directory(es) + EndRecords(|es|, |Locals(es)|, |Directory(es)|)
  }

  function Infos(es: seq<Stored>): (infos: seq<ZipInfo>)
    ensures |infos| == |es|
  {
    seq(|es|, i requires 0 <= i < |es| => es[i].info)
  }

  // Every member's header and data lie where the directory says they start.
  lemma {:induction false} MemberAtItsOffset(es: seq<Stored>, i: nat)
    requires i < |es|
    ensures var at := |Locals(es[..i])|;
            var record := LocalHeader(es[i]) + es[i].data;
            at + |record| <= |Locals(es)| && Archive(es)[at..at + |record|] == record
  {
    hide LocalHeader, Directory, EndRecords;
    LocalsPrefix(es, i + 1);
    assert es[..i + 1][..i] == es[..i];
    var at := |Locals(es[..i])|;
    var record := LocalHeader(es[i]) + es[i].data;
    assert Locals(es[..i + 1]) == Locals(es[..i]) + record;
    assert Archive(es)[at..at + |record|] == Locals(es)[..at + |record|][at..] == record;
  }

  lemma {:induction false} LocalsPrefix(es: seq<Stored>, n: nat)
    requires n <= |es|
    ensures Locals(es[..n]) <= Locals(es)
  {
    hide LocalHeader;
    if n < |es| {
      LocalsPrefix(es[..|es| - 1], n);
      assert es[..|es| - 1][..n] == es[..n];
    } else {
      assert es[..n] == es;
    }
  }

  // ----- sizes ------------------------------------------------------------------

  function LocalSize(info: ZipInfo): nat {
    30 + |NameBytes(info.filename)| + (if LocalZip64(info) then 20 else 0) + info.compressSize
  }

  function CentralSize(info: ZipInfo, offset: nat): nat {
    var zip64 := (if LargeSizes(info) then 16 else 0) + (if offset > ZIP64_LIMIT then 8 else 0);
    46 + |NameBytes(info.filename)| + (if zip64 > 0 then 4 + zip64 else 0)
  }

  function EndSize(count: nat, offset: nat, size: nat): nat {
    22 + if NeedsZip64End(count, offset, size) then 76 else 0
  }

  // Where the next member starts, and how long the directory is so far.
  datatype Cursor = Cursor(offset: nat, directory: nat)

  function Advance(at: Cursor, info: ZipInfo): Cursor {
    Cursor(at.offset + LocalSize(info), at.directory + CentralSize(info, at.offset))
  }

  function Walk(infos: seq<ZipInfo>, at: Cursor): Cursor {
    if infos == [] then at else Walk(infos[1..], Advance(at, infos[0]))
  }

  function SizeFrom(infos: seq<ZipInfo>, at: Cursor, count: nat): nat {
    var end := Walk(infos, at);
    end.offset + end.directory + EndSize(count + |infos|, end.offset, end.directory)
  }

  function Size(infos: seq<ZipInfo>): nat { SizeFrom(infos, Cursor(0, 0), 0) }

  // `_archive_size`
  method ArchiveSize(infos: seq<ZipInfo>) returns (size: nat)
    ensures size == Size(infos)
  {
    var offset: nat, centralSize: nat := 0, 0;
    for i := 0 to |infos|
      invariant Walk(infos[i..], Cursor(offset, centralSize)) == Walk(infos, Cursor(0, 0))
    {
      var info := infos[i];
      var nameSize := |NameBytes(info.filename)|;
      var localZip64 := info.fileSize * 21 > ZIP64_LIMIT * 20;
      var localSize := 30 + nameSize + (if localZip64 then 20 else 0) + info.compressSize;
      var centralZip64 := 0;
      if info.fileSize > ZIP64_LIMIT || info.compressSize > ZIP64_LIMIT {
        centralZip64 := centralZip64 + 16;
      }
      if offset > ZIP64_LIMIT {
        centralZip64 := centralZip64 + 8;
      }
      assert infos[i..][1..] == infos[i + 1..] && infos[i..][0] == info;
      assert Advance(Cursor(offset, centralSize), info)
          == Cursor(offset + localSize,
                    centralSize + 46 + nameSize + (if centralZip64 > 0 then 4 + centralZip64 else 0));
      centralSize := centralSize + 46 + nameSize + (if centralZip64 > 0 then 4 + centralZip64 else 0);
      offset := offset + localSize;
    }
    assert infos[|infos|..] == [];
    var endSize := 22;
    if |infos| > FILE_COUNT_LIMIT || offset > ZIP64_LIMIT || centralSize > ZIP64_LIMIT {
      endSize := endSize + 76;
    }
    size := offset + centralSize + endSize;
  }

  lemma RecordSizes(e: Stored, offset: nat)
    requires Sound(e)
    ensures |LocalHeader(e) + e.data| == LocalSize(e.info)
    ensures |CentralHeader(e, offset)| == CentralSize(e.info, offset)
  {
  }

  lemma {:induction false} WalkSnoc(infos: seq<ZipInfo>, last: ZipInfo, at: Cursor)
    ensures Walk(infos + [last], at) == Advance(Walk(infos, at), last)
  {
    if infos == [] {
      assert [last][1..] == [];
      assert Walk([last], at) == Walk([], Advance(at, last));
      assert [] + [last] == [last];
    } else {
      WalkSnoc(infos[1..], last, Advance(at, infos[0]));
      assert (infos + [last])[1..] == infos[1..] + [last];
    }
  }

  lemma AdvanceMeasures(e: Stored, offset: nat, size: nat)
    requires Sound(e)
    ensures Advance(Cursor(offset, size), e.info)
         == Cursor(offset + |LocalHeader(e)| + |e.data|, size + |CentralHeader(e, offset)|)
  {
    RecordSizes(e, offset);
  }

  lemma {:induction false} WalkMeasures(es: seq<Stored>)
    requires forall e :: e in es ==> Sound(e)
    ensures Walk(Infos(es), Cursor(0, 0)) == Cursor(|Locals(es)|, |Directory(es)|)
  {
    hide LocalHeader, CentralHeader, Advance;
    if es != [] {
      var n := |es| - 1;
      WalkMeasures(es[..n]);
      RecordSizes(es[n], |Locals(es[..n])|);
      WalkSnoc(Infos(es[..n]), es[n].info, Cursor(0, 0));
      assert Infos(es) == Infos(es[..n]) + [es[n].info];
      AdvanceMeasures(es[n], |Locals(es[..n])|, |Directory(es[..n])|);
    }
  }

  lemma EndRecordsLength(count: nat, offset: nat, size: nat)
    ensures |EndRecords(count, offset, size)| == EndSize(count, offset, size)
  {
  }

  // The computed size is the length of the archive, byte for byte, ZIP64 or not.
  lemma SizeIsExact(es: seq<Stored>)
    requires forall e :: e in es ==> Sound(e)
    ensures Size(Infos(es)) == |Archive(es)|
  {
    WalkMeasures(es);
    EndRecordsLength(|es|, |Locals(es)|, |Directory(es)|);
  }

  // ----- growth -----------------------------------------------------------------

  // No longer by name, size or compressed size.
  predicate AtMost(a: ZipInfo, b: ZipInfo) {
    a.filename == b.filename && a.fileSize <= b.fileSize && a.compressSize <= b.compressSize
  }

  predicate AllAtMost(xs: seq<ZipInfo>, ys: seq<ZipInfo>) {
    |xs| == |ys| && forall i :: 0 <= i < |xs| ==> AtMost(xs[i], ys[i])
  }

  lemma {:induction false} WalkMonotone(xs: seq<ZipInfo>, ys: seq<ZipInfo>, a: Cursor, b: Cursor)
    requires AllAtMost(xs, ys) && a.offset <= b.offset && a.directory <= b.directory
    ensures Walk(xs, a).offset <= Walk(ys, b).offset
    ensures Walk(xs, a).directory <= Walk(ys, b).directory
  {
    if xs != [] {
      assert AtMost(xs[0], ys[0]);
      WalkMonotone(xs[1..], ys[1..], Advance(a, xs[0]), Advance(b, ys[0]));
    }
  }

  // Larger members never make a smaller archive.
  lemma SizeMonotone(xs: seq<ZipInfo>, ys: seq<ZipInfo>)
    requires AllAtMost(xs, ys)
    ensures Size(xs) <= Size(ys)
  {
    WalkMonotone(xs, ys, Cursor(0, 0), Cursor(0, 0));
  }

  lemma {:induction false} WalkAppend(xs: seq<ZipInfo>, ys: seq<ZipInfo>, at: Cursor)
    ensures Walk(xs + ys, at) == Walk(ys, Walk(xs, at))
  {
    if xs == [] {
      assert xs + ys == ys;
    } else {
      WalkAppend(xs[1..], ys, Advance(at, xs[0]));
      assert (xs + ys)[1..] == xs[1..] + ys;
    }
  }

  lemma {:induction false} WalkGrows(xs: seq<ZipInfo>, at: Cursor)
    ensures at.offset <= Walk(xs, at).offset && at.directory <= Walk(xs, at).directory
  {
    if xs != [] { WalkGrows(xs[1..], Advance(at, xs[0])); }
  }

  // Nor do more members, whether they come before or after.
  lemma SizeOfAppend(xs: seq<ZipInfo>, ys: seq<ZipInfo>)
    ensures Size(xs) <= Size(xs + ys) && Size(ys) <= Size(xs + ys)
  {
    WalkAppend(xs, ys, Cursor(0, 0));
    WalkGrows(ys, Walk(xs, Cursor(0, 0)));
    WalkGrows(xs, Cursor(0, 0));
    forall i | 0 <= i < |ys| ensures AtMost(ys[i], ys[i]) {}
    WalkMonotone(ys, ys, Cursor(0, 0), Walk(xs, Cursor(0, 0)));
  }
}
