/**
 The memory oracle handed to libunwind (src/unwind_libunwind.c:187-221, 249-280, 296-355;
 src/dso.c:495-519): reads of the traced process's memory, answered from the stack
 snapshot or from the files its address ranges are backed by.
 */
module Unwind {
  import opened Words
  import opened RbTrees
  import opened RbLinks
  import opened RbHeap
  import opened Intervals
  import opened EhFrame
  import opened PageCache
  import Maps
  import Events

  const WORD: nat := 8

  ghost predicate Apart(d: DsoData, e: DsoData)
    reads d.cache, e.cache
  {
    d.cache != e.cache && d.cache.nodes !! e.cache.nodes
  }

  /** The objects of some DSOs and their caches. */
  ghost function Objects(dsos: map<string, DsoData>): set<object>
    reads set a | a in dsos :: dsos[a].cache
  {
    (set a | a in dsos :: dsos[a]) + (set a | a in dsos :: dsos[a].cache) + (set a, n | a in dsos
      && n in dsos[a].cache.nodes :: n)
  }

  /** The DSOs by name, each with its own page cache. */
  class Files {
    const dsos: map<string, DsoData>
    ghost var repr: set<object>

    constructor (dsos: map<string, DsoData>)
      requires forall a :: a in dsos ==> dsos[a].Valid()
      requires forall a, b :: a in dsos && b in dsos && dsos[a] != dsos[b] ==> Apart(dsos[a], dsos[b])
      ensures Valid() && this.dsos == dsos && repr == {this} + Objects(dsos)
    {
      this.dsos := dsos;
      repr := {this} + Objects(dsos);
      new;
      forall a | a in dsos ensures Member(dsos[a]) {}
    }

    ghost predicate Member(d: DsoData)
      reads this`repr, repr
    {
      d in repr && d.cache in repr && d.cache.nodes <= repr && d.Valid()
    }

    ghost predicate Valid()
      reads this, repr
    {
      this in repr && forall k: Seal :: Inv(k)
    }

    /** The invariant proper; `Valid` keeps it folded. */
    ghost predicate Inv(k: Seal)
      reads this, repr
    {
      && (forall a :: a in dsos ==> Member(dsos[a]))
      && (forall a, b :: a in dsos && b in dsos && dsos[a] != dsos[b] ==> Apart(dsos[a], dsos[b]))
    }

    /** No page in any cache has been released. */
    ghost predicate Clean()
      reads this, repr
    {
      Valid() && Inv(Seal) && forall a :: a in dsos ==> dsos[a].Clean()
    }

    /** dso__data_read_offset (src/dso.c:495-502) on the DSO called `name`. */
    method ReadOffset(name: string, offset: U64, data: array<Byte>, size: nat) returns (r: int)
      requires Valid() && name in dsos && data !in repr && size == data.Length < TWO63
      modifies repr, data
      ensures Valid() && fresh(repr - old(repr)) && data !in repr
      ensures var file := dsos[name].file;
        if offset <= |file| && offset + size < TWO64
        then r == Min(size, |file| - offset) && Filled(data[..], old(data[..]), file, offset, offset + r)
        else r == -1
      ensures old(Clean()) && size > 0 && offset != |dsos[name].file| ==> Clean()
    {
      var d := dsos[name];
      assert Inv(Seal) && Member(d);
      if offset <= |d.file| { BoundaryIs(d.cache.Seq(), |d.file|, offset, size); }
      r := d.DataReadOffset(offset, data, size);
      repr := repr + d.cache.nodes;
      forall a | a in dsos ensures Member(dsos[a]) {
        if dsos[a] != d { assert old(Member(dsos[a])) && old(Apart(dsos[a], d)); }
      }
      forall a, b | a in dsos && b in dsos && dsos[a] != dsos[b] ensures Apart(dsos[a], dsos[b]) {
        assert old(Member(dsos[a])) && old(Member(dsos[b])) && old(Apart(dsos[a], dsos[b]));
      }
      if old(Clean()) && size > 0 && offset != |d.file| {
        forall a | a in dsos ensures dsos[a].Clean() {
          if dsos[a] != d { assert old(Member(dsos[a])) && old(Apart(dsos[a], d)) && old(dsos[a].Clean()); }
        }
      }
    }

    /** A read of a whole variable or structure: `ok` if all of it could be read. */
    method ReadBlock(name: string, offset: U64, size: nat) returns (ok: bool, bytes: seq<Byte>)
      requires Valid() && name in dsos && 0 < size < TWO63
      modifies repr
      ensures Valid() && fresh(repr - old(repr))
      ensures ok <==> offset + size <= |dsos[name].file|
      ensures ok ==> bytes == dsos[name].file[offset..offset + size]
      ensures old(Clean()) && offset != |dsos[name].file| ==> Clean()
    {
      var data := new Byte[size](i => 0);
      ghost var zero := data[..];
      var r := ReadOffset(name, offset, data, size);
      ok, bytes := r == size, data[..];
      if ok { FilledIs(bytes, zero, dsos[name].file, offset, offset + size); }
    }
  }

  // ---------------------------------------------------------------- addresses and file offsets

  /** Both translations are one shift modulo 2^64. */
  lemma Shifts(m: Maps.Mapping, x: U64)
    ensures Maps.MapIp(m, x) == (x - m.range.start + m.pgoff) % TWO64
    ensures Maps.UnmapIp(m, x) == (x + m.range.start - m.pgoff) % TWO64
  {
    var g: int := m.pgoff;
    AddWraps(x - m.range.start, g);
    AddWraps(x + m.range.start, -g);
  }

  lemma ShiftBack(x: U64, k: int)
    ensures ((x + k) % TWO64 - k) % TWO64 == x
  {
    AddWraps(x + k, -k);
  }

  /** Translating an offset to an address and back through the same range is the identity, modulo 2^64. */
  lemma TranslateBack(m: Maps.Mapping, x: U64)
    ensures Maps.MapIp(m, Maps.UnmapIp(m, x)) == x
    ensures Maps.UnmapIp(m, Maps.MapIp(m, x)) == x
  {
    Shifts(m, x);
    Shifts(m, Maps.UnmapIp(m, x));
    Shifts(m, Maps.MapIp(m, x));
    ShiftBack(x, m.range.start - m.pgoff);
    ShiftBack(x, m.pgoff - m.range.start);
  }

  /** The eight bytes at an offset of a file as a word, if all of them are there. */
  ghost function FileWord(file: seq<Byte>, offset: nat): Option<nat> {
    if offset + 8 <= |file| then Some(Eight(file, offset)) else None
  }

  /** The word a file-backed address stands for. */
  ghost function DsoWord(t: Tree<Maps.MapNode>, dsos: map<string, DsoData>, addr: U64): Option<nat> {
    var n := FindIn(t, Maps.At(), addr);
    if n.None? || n.value.entry.name !in dsos then None
    else FileWord(dsos[n.value.entry.name].file, Maps.MapIp(n.value.entry, addr))
  }

  /** An offset handed to libunwind as an address is read back from the same place of the same file. */
  lemma SameFileByte(t: Tree<Maps.MapNode>, dsos: map<string, DsoData>, n: Maps.MapNode, x: U64)
    requires n.entry.name in dsos && FindIn(t, Maps.At(), Maps.UnmapIp(n.entry, x)) == Some(n)
    ensures DsoWord(t, dsos, Maps.UnmapIp(n.entry, x)) == FileWord(dsos[n.entry.name].file, x)
  {
    TranslateBack(n.entry, x);
  }

  ghost predicate Backed(maps: Maps.AddressSpace, files: Files)
    reads maps.entries
  {
    forall n :: n in maps.entries.nodes ==> n.entry.name in files.dsos
  }

  /** The address ranges and the files have no object in common. */
  ghost predicate Separate(maps: Maps.AddressSpace, files: Files)
    reads maps.entries, files
  {
    maps !in files.repr && maps.entries !in files.repr && maps.entries.nodes !! files.repr
  }

  /** dso__data_read_addr (src/dso.c:513-519) for one word. */
  method ReadAddr(files: Files, m: Maps.Mapping, addr: U64) returns (ok: bool, val: nat)
    requires files.Valid() && m.name in files.dsos
    modifies files.repr
    ensures files.Valid() && fresh(files.repr - old(files.repr))
    ensures var w := FileWord(files.dsos[m.name].file, Maps.MapIp(m, addr)); ok == w.Some? && (ok ==> val == w.value)
    ensures old(files.Clean()) && Maps.MapIp(m, addr) != |files.dsos[m.name].file| ==> files.Clean()
  {
    var bytes;
    ok, bytes := files.ReadBlock(m.name, Maps.MapIp(m, addr), WORD);
    val := Little(bytes);
    if ok {
      var at := Maps.MapIp(m, addr);
      LittleEight(files.dsos[m.name].file, at);
      assert bytes == files.dsos[m.name].file[at..at + 8];
    }
  }

  /** access_dso_mem (src/unwind_libunwind.c:296-315) with dso__data_read_addr (src/dso.c:513-519). */
  method AccessDsoMem(maps: Maps.AddressSpace, files: Files, addr: U64) returns (ret: int, val: nat)
    requires maps.Valid() && files.Valid() && Backed(maps, files) && Separate(maps, files)
    modifies files.repr
    ensures maps.Valid() && files.Valid() && fresh(files.repr - old(files.repr)) && Separate(maps, files)
    ensures var w := DsoWord(maps.entries.tree, files.dsos, addr);
      if w.Some? then ret == 0 && val == w.value else ret == NoWord(maps.entries.tree, addr)
    ensures old(files.Clean()) && !AtEnd(maps.entries.tree, files.dsos, addr) ==> files.Clean()
  {
    val := 0;
    var n := maps.Find(addr);
    if n == null {
      return -1, val;
    }
    var ok;
    ok, val := ReadAddr(files, n.entry, addr);
    ret := if ok then 0 else 1;
  }

  /** The two ways a read from the files fails: no range contains the address, or its file lacks the word. */
  ghost function NoWord(t: Tree<Maps.MapNode>, addr: U64): int {
    if FindIn(t, Maps.At(), addr).None? then -1 else 1
  }

  /** The one case in which the page cache would release a page it keeps. */
  ghost predicate AtEnd(t: Tree<Maps.MapNode>, dsos: map<string, DsoData>, addr: U64) {
    var n := FindIn(t, Maps.At(), addr);
    n.Some? && n.value.entry.name in dsos && Maps.MapIp(n.value.entry, addr) == |dsos[n.value.entry.name].file|
  }

  // ---------------------------------------------------------------- the oracle

  /** The snapshot holds the word: it starts in it and ends before its last byte, and it does not wrap around. */
  predicate InSnapshot(sp: U64, size: int, addr: U64) {
    sp <= addr && addr + 8 < sp + size && sp + size < TWO64
  }

  /** The code's comparison with the wrapped end of the snapshot decides exactly that. */
  lemma SnapshotTest(sp: U64, size: int, addr: U64)
    requires 0 < size <= 8192 && addr + WORD < TWO64
    ensures (addr < sp || addr + WORD >= (sp + size) % TWO64) <==> !InSnapshot(sp, size, addr)
    ensures InSnapshot(sp, size, addr) ==> 0 <= addr - sp <= size - 8
  {
    if sp + size < TWO64 { assert (sp + size) % TWO64 == sp + size; }
      else { assert (sp + size) % TWO64 == sp + size - TWO64; }
  }

  /** access_mem (src/unwind_libunwind.c:317-355); `valp` is what the caller's word holds before. */
  method AccessMem(maps: Maps.AddressSpace, files: Files, stack: seq<Byte>, size: int, sp: U64, addr: U64, valp: nat,
                   write: bool)
    returns (ret: int, val: nat)
    requires maps.Valid() && files.Valid() && Backed(maps, files) && Separate(maps, files)
    requires |stack| == 8192 && size <= 8192
    modifies files.repr
    ensures maps.Valid() && files.Valid() && fresh(files.repr - old(files.repr)) && Separate(maps, files)
    ensures write || size <= 0 ==> ret == 0 && val == 0
    ensures !write && size > 0 && addr + 8 >= TWO64 ==> ret == -22 && val == valp
    ensures !write && size > 0 && InSnapshot(sp, size, addr) ==>
              ret == 0 && 0 <= addr - sp <= size - 8 && val == Eight(stack, addr - sp)
    ensures !write && size > 0 && addr + 8 < TWO64 && !InSnapshot(sp, size, addr) ==>
              var w := DsoWord(maps.entries.tree, files.dsos, addr);
              if w.Some? then ret == 0 && val == w.value else ret == NoWord(maps.entries.tree, addr) && val == 0
    ensures old(files.Clean()) && !AtEnd(maps.entries.tree, files.dsos, addr) ==> files.Clean()
  {
    if write || size <= 0 {
      return 0, 0;
    }
    var end := (sp + size) % TWO64;
    if (addr + WORD) % TWO64 < addr {
      return EINVAL, valp;
    }
    SnapshotTest(sp, size, addr);
    if addr < sp || addr + WORD >= end {
      ret, val := AccessDsoMem(maps, files, addr);
      if ret != 0 {
        val := 0;
      }
      return;
    }
    var offset := addr - sp;
    val := Little(stack[offset..offset + WORD]);
    LittleEight(stack, offset);
    ret := 0;
  }

  /** The last word of a snapshot, which ends exactly at its end, is refused. */
  method LastWordRefused(stack: seq<Byte>) returns (ret: int, val: nat)
    requires |stack| == 8192
    ensures ret == -1 && val == 0
  {
    var maps := new Maps.AddressSpace();
    var files := new Files(map[]);
    assert files.repr == {files};
    var sp, size := 0x7fff_0000, 64;
    ret, val := AccessMem(maps, files, stack, size, sp, sp + size - 8, 0, false);
  }

  // ---------------------------------------------------------------- unwind tables

  /** A header, as read: version, three encodings and 16 bytes for the two pointers. */
  type Header = s: seq<Byte> | |s| == HDR witness seq(HDR, _ => 0)

  function PtrEnc(hdr: Header): bv8 {
    hdr[1] as bv8
  }

  function CountEnc(hdr: Header): bv8 {
    hdr[2] as bv8
  }

  /** Both pointers of the header have supported encodings. */
  predicate Readable(hdr: Header) {
    Supported(PtrEnc(hdr)) && Supported(CountEnc(hdr))
  }

  /** The length of the header: the search table starts right behind the two encoded pointers. */
  function HeaderLength(hdr: Header): (n: nat)
    ensures ENC <= n <= HDR
  {
    ENC + Width(PtrEnc(hdr)) + Width(CountEnc(hdr))
  }

  /** The number of entries; `base` is where the copy of the header lies in memory. */
  function FdeCount(hdr: Header, base: U64): U64 {
    Decoded(hdr, base, ENC + Width(PtrEnc(hdr)), CountEnc(hdr))
  }

  /** The two pointers one after the other, read as the encodings in the second and third byte say. */
  lemma HeaderByNibble(hdr: Header, base: U64) returns (frame: U64, n: nat)
    requires Readable(hdr)
    ensures ByNibble(hdr, base, 4, 20, hdr[1] as bv8, 0, frame, n) && n <= 20
    ensures ByNibble(hdr, base, n, 20, hdr[2] as bv8, 0, FdeCount(hdr, base), HeaderLength(hdr))
  {
    LiteralDecoded(hdr, base, ENC, HDR, PtrEnc(hdr));
    frame, n := Decoded(hdr, base, ENC, PtrEnc(hdr)), ENC + Width(PtrEnc(hdr));
    LiteralDecoded(hdr, base, n, HDR, CountEnc(hdr));
  }

  /**
   The header that linkers write, a signed relative pointer of four bytes and an unsigned count
   of four bytes: its table is at 12, its count in the bytes before.
   */
  lemma OrdinaryHeader(hdr: Header, base: U64)
    requires hdr[1] == 0x1b && hdr[2] == 0x03
    ensures Readable(hdr) && HeaderLength(hdr) == 12 && FdeCount(hdr, base) == Four(hdr, 8)
  {
    assert PtrEnc(hdr) == 0x1b && CountEnc(hdr) == 0x03;
    assert FormatOf(0x1b) == Some(Value(4, true)) && FormatOf(0x03) == Some(Value(4, false));
    LittleFour(hdr, 8);
    WordBounds(hdr[8..12]);
  }

  /** The header at `offset`, if the file has all of it. */
  ghost function HeaderAt(file: seq<Byte>, offset: nat): (h: Option<Header>) {
    if offset + 20 <= |file| then Some(file[offset..offset + 20]) else None
  }

  ghost predicate Usable(file: seq<Byte>, offset: nat) {
    HeaderAt(file, offset).Some? && Readable(HeaderAt(file, offset).value)
  }

  /** The decoding part of unwind_spec_ehframe (src/unwind_libunwind.c:214-220). */
  method ReadHeader(hdr: Header, base: U64, offset: U64) returns (ret: int, table: U64, fdes: U64)
    ensures ret == if Readable(hdr) then 0 else EINVAL
    ensures ret == 0 ==> table == (offset + HeaderLength(hdr)) % TWO64 && fdes == FdeCount(hdr, base)
  {
    table, fdes := 0, 0;
    var enc, skip;
    ret, skip, enc := ReadEncoded(hdr, base, ENC, HDR, PtrEnc(hdr));
    if ret != 0 {
      return EINVAL, 0, 0;
    }
    ret, fdes, enc := ReadEncoded(hdr, base, enc, HDR, CountEnc(hdr));
    if ret != 0 {
      return EINVAL, 0, 0;
    }
    table := (enc + offset) % TWO64;
  }

  /** What unwind_spec_ehframe gives for the header at `offset`. */
  ghost predicate Spec(file: seq<Byte>, offset: U64, base: U64, ret: int, table: U64, segbase: U64, fdes: U64) {
    if Usable(file, offset)
    then var hdr := HeaderAt(file, offset).value;
         ret == 0 && table == offset + HeaderLength(hdr) && segbase == offset && fdes == FdeCount(hdr, base)
    else ret == EINVAL
  }

  /** unwind_spec_ehframe (src/unwind_libunwind.c:200-221). */
  method SpecEhframe(files: Files, name: string, offset: U64, base: U64)
    returns (ret: int, table: U64, segbase: U64, fdes: U64)
    requires files.Valid() && name in files.dsos
    modifies files.repr
    ensures files.Valid() && fresh(files.repr - old(files.repr))
    ensures Spec(files.dsos[name].file, offset, base, ret, table, segbase, fdes)
    ensures old(files.Clean()) && offset != |files.dsos[name].file| ==> files.Clean()
  {
    var ok, hdr := files.ReadBlock(name, offset, HDR);
    segbase := offset;
    if ok {
      ret, table, fdes := ReadHeader(hdr, base, offset);
      SpecRead(files.dsos[name].file, offset, base, ret, table, fdes, hdr);
    } else {
      ret, table, fdes := EINVAL, 0, 0;
    }
  }

  lemma SpecRead(file: File, offset: U64, base: U64, ret: int, table: U64, fdes: U64, hdr: Header)
    requires HeaderAt(file, offset) == Some(hdr) && ret == if Readable(hdr) then 0 else EINVAL
    requires ret == 0 ==> table == (offset + HeaderLength(hdr)) % TWO64 && fdes == FdeCount(hdr, base)
    ensures Spec(file, offset, base, ret, table, offset, fdes)
  {
  }

  /** The part of unw_dyn_info_t that is filled in. */
  datatype DynInfo = DynInfo(startIp: U64, endIp: U64, segbase: U64, tableData: U64, tableLen: U64)

  function DynOf(m: Maps.Mapping, table: U64, segbase: U64, fdes: U64): DynInfo {
    DynInfo(m.range.start, m.range.end,
            Sub64(Add64(m.range.start, segbase), m.pgoff),
            Sub64(Add64(m.range.start, table), m.pgoff),
            (fdes * 8) % TWO64 / 8)
  }

  /** The description leads back to the file: the base and the table by address, the length in words. */
  ghost predicate LeadsTo(di: DynInfo, m: Maps.Mapping, table: nat, segbase: U64, fdes: U64) {
    && di.startIp == m.range.start && di.endIp == m.range.end
    && Maps.MapIp(m, di.segbase) == segbase && Maps.MapIp(m, di.tableData) == table
    && di.tableLen == fdes % 0x2000_0000_0000_0000
    && (di.tableLen == fdes <==> fdes < 0x2000_0000_0000_0000)
  }

  lemma DynLeads(m: Maps.Mapping, table: U64, segbase: U64, fdes: U64)
    ensures LeadsTo(DynOf(m, table, segbase, fdes), m, table, segbase, fdes)
  {
    TranslateBack(m, segbase);
    TranslateBack(m, table);
    TableLength(fdes);
  }

  lemma TableLength(fdes: U64)
    ensures (fdes * 8) % TWO64 / 8 == fdes % 0x2000_0000_0000_0000
    ensures (fdes * 8) % TWO64 / 8 == fdes <==> fdes < 0x2000_0000_0000_0000
  {
    var k, r := fdes / 0x2000_0000_0000_0000, fdes % 0x2000_0000_0000_0000;
    assert fdes * 8 == r * 8 + k * TWO64;
    ModShift(r * 8, k);
  }

  /** A header whose count is the signed 4-byte value -1; the other pointer is omitted. */
  function HugeHeader(): Header {
    [1, 0xff, 0x0b, 0] + [0xff, 0xff, 0xff, 0xff] + seq(12, _ => 0)
  }

  /** It decodes to 2^64 - 1 entries, and the length handed to libunwind is 2^61 - 1. */
  lemma HugeCount(m: Maps.Mapping, base: U64, table: U64, segbase: U64)
    ensures Readable(HugeHeader()) && FdeCount(HugeHeader(), base) == TWO64 - 1
    ensures DynOf(m, table, segbase, FdeCount(HugeHeader(), base)).tableLen == TWO64 / 8 - 1
  {
    var h := HugeHeader();
    assert h[1] == 0xff && h[2] == 0x0b;
    assert PtrEnc(h) == 0xff && CountEnc(h) == 0x0b;
    assert FormatOf(0xff) == Some(Absent) && FormatOf(0x0b) == Some(Value(4, true));
    var b1: seq<Byte>, b2: seq<Byte>, b3: seq<Byte>, b4: seq<Byte> := [0xff], [0xff] + [0xff], [0xff]
      + [0xff, 0xff], h[4..8];
    assert b4 == [0xff] + b3 && b3[1..] == b2 && b2[1..] == b1;
    assert Little(b1) == 0xff && Little(b2) == 0xffff && Little(b3) == 0xff_ffff && Little(b4) == TWO32 - 1;
    assert Raw(h, 4, Value(4, true)) == -1;
  }

  /** What find_proc_info gives for a range of the file called `m.name`. */
  ghost predicate Described(m: Maps.Mapping, file: seq<Byte>, offset: U64, base: U64, ret: int, di: DynInfo) {
    && (ret == 0 || ret == EINVAL)
    && (ret == 0 <==> offset != 0 && Usable(file, offset))
    && (ret == 0 ==>
          var hdr := HeaderAt(file, offset).value;
          LeadsTo(di, m, offset + HeaderLength(hdr), offset, FdeCount(hdr, base)))
  }

  /** The part of find_proc_info after the lookup (src/unwind_libunwind.c:265-277). */
  method Describe(files: Files, m: Maps.Mapping, offset: U64, base: U64) returns (ret: int, di: DynInfo)
    requires files.Valid() && m.name in files.dsos
    modifies files.repr
    ensures files.Valid() && fresh(files.repr - old(files.repr))
    ensures Described(m, files.dsos[m.name].file, offset, base, ret, di)
  {
    ret, di := EINVAL, DynInfo(0, 0, 0, 0, 0);
    if offset == 0 {
      return;
    }
    var table, segbase, fdes;
    ret, table, segbase, fdes := SpecEhframe(files, m.name, offset, base);
    if ret == 0 {
      di := DynOf(m, table, segbase, fdes);
      DynLeads(m, table, segbase, fdes);
    }
  }

  /**
   find_proc_info (src/unwind_libunwind.c:249-280) up to the call into libunwind; `header`
   gives the section offset of .eh_frame_hdr in a file, 0 if there is none.
   */
  method FindProcInfo(maps: Maps.AddressSpace, files: Files, header: string -> U64, base: U64, ip: U64)
    returns (ret: int, di: DynInfo, n: Node?<Maps.Mapping, ()>)
    requires maps.Valid() && files.Valid() && Backed(maps, files) && Separate(maps, files)
    modifies files.repr
    ensures maps.Valid() && files.Valid() && fresh(files.repr - old(files.repr)) && Separate(maps, files)
    ensures Ref(n) == FindIn(maps.entries.tree, Maps.At(), ip) && (n != null ==> n.entry.name in files.dsos)
    ensures n == null ==> ret == EINVAL
    ensures n != null ==>
              && Contains(n.entry.range, ip)
              && Described(n.entry, files.dsos[n.entry.name].file, header(n.entry.name), base, ret, di)
  {
    n := maps.Find(ip);
    if n == null {
      return EINVAL, DynInfo(0, 0, 0, 0, 0), n;
    }
    ret, di := Describe(files, n.entry, header(n.entry.name), base);
  }

  // ---------------------------------------------------------------- from /proc to memory

  /**
   End to end: in an address space loaded from ascending lines, an address covered by an
   executable line is answered with the word of that line's file at the line's offset.
   */
  lemma {:induction false} LoadedMemory(lines: seq<Events.Line>, added: seq<Maps.MapNode>, t: Tree<Maps.MapNode>,
                                        dsos: map<string, DsoData>, addr: U64, k: nat)
    requires Events.Ascending(lines) && Events.Entries(added) == Events.Kept(lines)
      && Inorder(t) == Events.PlaceAll([], added)
    requires Events.Covering(lines, k, addr)
    requires (if lines[k].execname == "" then "//anon" else lines[k].execname) in dsos
    ensures var name := if lines[k].execname == "" then "//anon" else lines[k].execname;
      DsoWord(t, dsos, addr) == FileWord(dsos[name].file, (addr - lines[k].start + lines[k].pgoff) % TWO64)
  {
    Events.LineFound(lines, added, t, addr, k);
    WordOf(t, dsos, addr, FindIn(t, Maps.At(), addr).value, Events.MappingOf(lines[k]));
  }

  lemma {:induction false} WordOf(t: Tree<Maps.MapNode>, dsos: map<string, DsoData>, addr: U64,
                                  n: Maps.MapNode, m: Maps.Mapping)
    requires FindIn(t, Maps.At(), addr) == Some(n) && n.entry == m && m.name in dsos
    ensures DsoWord(t, dsos, addr) == FileWord(dsos[m.name].file, (addr - m.range.start + m.pgoff) % TWO64)
  {
    Shifts(m, addr);
  }
}
