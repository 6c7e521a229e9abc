/** Saving and loading BTF in native and in swapped byte order. */
module BtfByteOrder {
  import opened BtfTypes
  import opened BtfEncoding
  import opened BtfSection

  const MAGIC: nat := 0xeb9f
  const ENOTSUP: int := 95
  const HDR_LEN: nat := 24

  predicate IsWord(w: nat) { w < 0x1_0000_0000 }

  ghost predicate AreWords(ws: seq<nat>) { forall i :: 0 <= i < |ws| ==> IsWord(ws[i]) }

  function Bswap16(h: nat): nat { h % 256 * 256 + h / 256 % 256 }

  function Bswap32(w: nat): (r: nat)
    ensures IsWord(r)
  {
    w % 256 * 0x100_0000 + w / 256 % 256 * 0x1_0000 + w / 0x1_0000 % 256 * 256 + w / 0x100_0000 % 256
  }

  function Join(a: nat, b: nat, c: nat, d: nat): nat { a * 0x100_0000 + b * 0x1_0000 + c * 256 + d }

  lemma BswapJoin(a: nat, b: nat, c: nat, d: nat)
    requires a < 256 && b < 256 && c < 256 && d < 256
    ensures Bswap32(Join(a, b, c, d)) == Join(d, c, b, a)
  {
    var w := Join(a, b, c, d);
    LowDigit(a * 0x1_0000 + b * 256 + c, d, w);
    LowDigit(a * 256 + b, c, w / 256);
    LowDigit(a, b, w / 256 / 256);
    Quotients(w);
  }

  lemma LowDigit(q: nat, r: nat, w: nat)
    requires r < 256 && w == q * 256 + r
    ensures w % 256 == r && w / 256 == q
  {
  }

  lemma Quotients(w: nat)
    ensures w / 0x1_0000 == w / 256 / 256 && w / 0x100_0000 == w / 256 / 256 / 256
  {
  }

  lemma SplitWord(w: nat) returns (a: nat, b: nat, c: nat, d: nat)
    requires IsWord(w)
    ensures a < 256 && b < 256 && c < 256 && d < 256 && w == Join(a, b, c, d)
  {
    var x := w / 256;
    var y := x / 256;
    d, c, b, a := w % 256, x % 256, y % 256, y / 256;
  }

  lemma Bswap32Involution(w: nat)
    requires IsWord(w)
    ensures Bswap32(Bswap32(w)) == w
  {
    var a, b, c, d := SplitWord(w);
    BswapJoin(a, b, c, d);
    BswapJoin(d, c, b, a);
  }

  lemma Bswap16Involution(h: nat)
    requires h < 0x1_0000
    ensures Bswap16(Bswap16(h)) == h
  {
  }

  ghost function SwapAll(ws: seq<nat>): (r: seq<nat>)
    ensures |r| == |ws| && forall i :: 0 <= i < |ws| ==> r[i] == Bswap32(ws[i])
  {
    seq(|ws|, i requires 0 <= i < |ws| => Bswap32(ws[i]))
  }

  lemma SwapAllInvolution(ws: seq<nat>)
    requires AreWords(ws)
    ensures SwapAll(SwapAll(ws)) == ws
  {
    forall i | 0 <= i < |ws|
      ensures SwapAll(SwapAll(ws))[i] == ws[i]
    {
      Bswap32Involution(ws[i]);
    }
  }

  // ------------------------------------------------------------------
  // Swapping records in place
  // ------------------------------------------------------------------

  /** Words from `at` on are as in `ws`, words before it are swapped. */
  ghost predicate SwappedBelow(a: seq<nat>, ws: seq<nat>, at: nat) {
    |a| == |ws| && forall i :: 0 <= i < |a| ==> a[i] == if i < at then Bswap32(ws[i]) else ws[i]
  }

  method SwapWords(a: array<nat>, lo: nat, hi: nat)
    requires lo <= hi <= a.Length
    modifies a
    ensures forall i :: 0 <= i < a.Length ==> a[i] == if lo <= i < hi then Bswap32(old(a[i])) else old(a[i])
  {
    var k := lo;
    while k < hi
      invariant lo <= k <= hi
      invariant forall i :: 0 <= i < a.Length ==> a[i] == if lo <= i < k then Bswap32(old(a[i])) else old(a[i])
    {
      a[k] := Bswap32(a[k]);
      k := k + 1;
    }
  }

  /** Swap what follows the header of the record at `off`; its info word must be native. */
  method SwapTypeRest(a: array<nat>, off: nat) returns (err: int)
    requires off + HEADER_WORDS <= a.Length
    requires off + RecordWords(InfoOf(a[off + 1])) <= a.Length
    modifies a
    ensures err == if KindOf(old(a[off + 1])) == Unknown then -EINVAL else 0
    ensures err == 0 ==> forall i :: 0 <= i < a.Length ==>
              a[i] == if off + HEADER_WORDS <= i < off + RecordWords(InfoOf(old(a[off + 1]))) then Bswap32(old(a[i])) else old(a[i])
    ensures err != 0 ==> a[..] == old(a[..])
  {
    if KindOf(a[off + 1]) == Unknown {
      return -EINVAL;
    }
    SwapWords(a, off + HEADER_WORDS, off + RecordWords(InfoOf(a[off + 1])));
    return 0;
  }

  /** Swaps one record, the rest before the header. */
  method SwapRecord(a: array<nat>, ghost ws: seq<nat>, off: nat)
    requires SwappedBelow(a[..], ws, off) && off + HEADER_WORDS <= |ws| && KindOf(ws[off + 1]) != Unknown
    requires off + RecordWords(InfoOf(ws[off + 1])) <= |ws|
    modifies a
    ensures SwappedBelow(a[..], ws, off + RecordWords(InfoOf(ws[off + 1])))
  {
    hide KindOf;
    hide RecordWords;
    hide InfoOf;
    hide Bswap32;
    assert a[..][off + 1] == ws[off + 1];
    ghost var n := RecordWords(InfoOf(ws[off + 1]));
    HeaderFits(InfoOf(ws[off + 1]));
    ghost var a0 := a[..];
    var err := SwapTypeRest(a, off);
    SwapWords(a, off, off + HEADER_WORDS);
    forall i | 0 <= i < a.Length ensures a[..][i] == if i < off + n then Bswap32(ws[i]) else ws[i] {
      assert a0[i] == if i < off then Bswap32(ws[i]) else ws[i];
    }
  }

  lemma HeaderFits(info: Info)
    ensures RecordWords(info) >= HEADER_WORDS
  {
  }

  lemma PartitionStarts(ws: seq<nat>, offs: seq<nat>)
    requires Partition(ws, offs)
    ensures if offs == [] then ws == [] else offs[0] == 0
  {
    ChunksStart(SizeIn(ws), offs, |ws|);
  }

  /** A record of a section, and where the next one is. */
  lemma PartitionAt(ws: seq<nat>, offs: seq<nat>, i: nat)
    requires Partition(ws, offs) && i < |offs|
    ensures var off := offs[i];
            && off + HEADER_WORDS <= |ws| && KindOf(ws[off + 1]) != Unknown
            && off + RecordWords(InfoOf(ws[off + 1])) == (if i + 1 < |offs| then offs[i + 1] else |ws|)
            && off + RecordWords(InfoOf(ws[off + 1])) <= |ws|
  {
    hide KindOf;
    hide RecordWords;
    hide InfoOf;
    assert SizeIn(ws)(offs[i]) > 0 && offs[i] + SizeIn(ws)(offs[i]) == EndOf(offs, i, |ws|);
  }

  /** Serialise a section in the other byte order: for each record the rest first, as
      long as the info word that gives its size is native, and then the header. */
  method WriteSwapped(ws: seq<nat>, offs: seq<nat>) returns (out: seq<nat>)
    requires Partition(ws, offs)
    ensures out == SwapAll(ws)
  {
    hide KindOf;
    hide Partition;
    hide RecordWords;
    hide InfoOf;
    hide Bswap32;
    PartitionStarts(ws, offs);
    var a := new nat[|ws|](i requires 0 <= i < |ws| => ws[i]);
    var i := 0;
    while i < |offs|
      invariant 0 <= i <= |offs|
      invariant SwappedBelow(a[..], ws, if i < |offs| then offs[i] else |ws|)
    {
      PartitionAt(ws, offs, i);
      hide SwappedBelow;
      SwapRecord(a, ws, offs[i]);
      i := i + 1;
    }
    out := a[..];
  }

  /** Make the record at `next` native: the header first, to learn its size, and then
      the rest.  Size 0 stands for an unknown kind or a record that does not fit. */
  method ReadRecord(a: array<nat>, next: nat, ghost raw: seq<nat>) returns (size: nat)
    requires next + HEADER_WORDS <= a.Length && SwappedBelow(a[..], raw, next)
    modifies a
    ensures size == SizeAt(SwapAll(raw), next)
    ensures size > 0 ==> next + size <= a.Length && SwappedBelow(a[..], raw, next + size)
  {
    SwapWords(a, next, next + HEADER_WORDS);
    assert a[next + 1] == SwapAll(raw)[next + 1];
    size := RecordWords(InfoOf(a[next + 1]));
    if KindOf(a[next + 1]) == Unknown || next + size > a.Length {
      return 0;
    }
    var err := SwapTypeRest(a, next);
  }

  lemma NoChunks(ws: seq<nat>)
    ensures Chunks(SizeIn(ws), [], 0) && forall off: nat :: SizeIn(ws)(off) == SizeAt(ws, off)
    ensures forall off: nat :: off + HEADER_WORDS > |ws| ==> SizeAt(ws, off) == 0
  {
  }

  /** Parse a section stored in the other byte order. */
  method ParseSwapped(raw: seq<nat>) returns (err: int, ws: seq<nat>, offs: seq<nat>)
    ensures err == 0 || err == -EINVAL
    ensures err == 0 ==> ws == SwapAll(raw) && Partition(ws, offs)
    ensures err != 0 ==> forall whole :: !Partition(SwapAll(raw), whole)
  {
    hide SizeAt;
    hide Chunks;
    ghost var native := SwapAll(raw);
    NoChunks(native);
    var a := new nat[|raw|](i requires 0 <= i < |raw| => raw[i]);
    offs := [];
    var next := 0;
    while next + HEADER_WORDS <= |raw|
      invariant next <= |raw| && a.Length == |raw|
      invariant SwappedBelow(a[..], raw, next)
      invariant Chunks(SizeIn(native), offs, next)
      decreases |raw| - next
    {
      var size := ReadRecord(a, next, raw);
      if size == 0 {
        NoPartition(native, offs, next);
        return -EINVAL, a[..], offs;
      }
      ChunksAdd(SizeIn(native), offs, next);
      offs := offs + [next];
      next := next + size;
    }
    if next != |raw| {
      NoPartition(native, offs, next);
      return -EINVAL, a[..], offs;
    }
    assert a[..] == native;
    return 0, a[..], offs;
  }

  // ------------------------------------------------------------------
  // Headers
  // ------------------------------------------------------------------

  datatype Header = Header(magic: nat, version: nat, flags: nat, hdrLen: nat,
                           typeOff: nat, typeLen: nat, strOff: nat, strLen: nat)

  ghost predicate HeaderOk(h: Header) {
    && h.magic < 0x1_0000
    && IsWord(h.hdrLen) && IsWord(h.typeOff) && IsWord(h.typeLen) && IsWord(h.strOff) && IsWord(h.strLen)
  }

  function SwapHeader(h: Header): Header {
    Header(Bswap16(h.magic), h.version, h.flags, Bswap32(h.hdrLen),
           Bswap32(h.typeOff), Bswap32(h.typeLen), Bswap32(h.strOff), Bswap32(h.strLen))
  }

  lemma SwapHeaderInvolution(h: Header)
    requires HeaderOk(h)
    ensures SwapHeader(SwapHeader(h)) == h
  {
    Bswap16Involution(h.magic);
    Bswap32Involution(h.hdrLen);
    Bswap32Involution(h.typeOff);
    Bswap32Involution(h.typeLen);
    Bswap32Involution(h.strOff);
    Bswap32Involution(h.strLen);
  }

  /** The layout of a header that was built rather than loaded; lengths in bytes. */
  ghost predicate BuiltHeader(h: Header, rawSize: nat) {
    && HeaderOk(h) && h.magic == MAGIC && h.hdrLen == HDR_LEN
    && h.typeOff == 0 && h.strOff == h.typeLen
    && rawSize == h.hdrLen + h.typeLen + h.strLen
  }

  /** The sections named by a native header lie within the file, types before strings. */
  predicate LayoutOk(h: Header, rawSize: nat) {
    && h.hdrLen + h.strOff + h.strLen <= rawSize
    && h.typeOff + h.typeLen <= h.strOff
    && h.typeOff % 4 == 0
  }

  /** A header that loading accepts. */
  ghost predicate HeaderValid(raw: Header, rawSize: nat) {
    && rawSize >= HDR_LEN
    && (|| (raw.magic == Bswap16(MAGIC) && Bswap32(raw.hdrLen) == HDR_LEN && LayoutOk(SwapHeader(raw), rawSize))
        || (raw.magic == MAGIC && LayoutOk(raw, rawSize)))
  }

  /** A built header is accepted and recovered in either byte order. */
  lemma BuiltHeaderValid(h: Header, rawSize: nat, swapped: bool, raw: Header)
    requires BuiltHeader(h, rawSize) && raw == if swapped then SwapHeader(h) else h
    ensures HeaderValid(raw, rawSize)
    ensures swapped <==> raw.magic == Bswap16(MAGIC)
    ensures h == if swapped then SwapHeader(raw) else raw
  {
    SwapHeaderInvolution(h);
  }

  method ParseHeader(raw: Header, rawSize: nat) returns (err: int, h: Header, swapped: bool)
    ensures err == 0 || err == -EINVAL || err == -ENOTSUP
    ensures err == 0 ==> LayoutOk(h, rawSize) && h == (if swapped then SwapHeader(raw) else raw)
    ensures err == 0 <==> HeaderValid(raw, rawSize)
    ensures err == 0 ==> (swapped <==> raw.magic == Bswap16(MAGIC))
  {
    h, swapped := raw, false;
    if rawSize < HDR_LEN {
      return -EINVAL, h, swapped;
    }
    if h.magic == Bswap16(MAGIC) {
      swapped := true;
      if Bswap32(h.hdrLen) != HDR_LEN {
        return -ENOTSUP, h, swapped;
      }
      h := SwapHeader(h);
    } else if h.magic != MAGIC {
      return -EINVAL, h, swapped;
    }
    if rawSize < h.hdrLen {
      return -EINVAL, h, swapped;
    }
    if rawSize - h.hdrLen < h.strOff + h.strLen {
      return -EINVAL, h, swapped;
    }
    if h.typeOff + h.typeLen > h.strOff {
      return -EINVAL, h, swapped;
    }
    if h.typeOff % 4 != 0 {
      return -EINVAL, h, swapped;
    }
    return 0, h, swapped;
  }

  // ------------------------------------------------------------------
  // Whole objects
  // ------------------------------------------------------------------

  /** A BTF object in memory: header, type section and its index, string section. */
  datatype Btf = Btf(hdr: Header, types: seq<nat>, offs: seq<nat>, strs: seq<nat>)

  /** A stored BTF file with the layout that saving produces. */
  datatype Image = Image(hdr: Header, types: seq<nat>, strs: seq<nat>)

  function ImageSize(img: Image): nat { HDR_LEN + 4 * |img.types| + |img.strs| }

  ghost predicate BtfOk(b: Btf) {
    && BuiltHeader(b.hdr, HDR_LEN + 4 * |b.types| + |b.strs|)
    && b.hdr.typeLen == 4 * |b.types| && b.hdr.strLen == |b.strs|
    && AreWords(b.types) && Partition(b.types, b.offs)
  }

  method RawData(b: Btf, swapEndian: bool) returns (img: Image)
    requires BtfOk(b)
    ensures img.strs == b.strs
    ensures img.hdr == if swapEndian then SwapHeader(b.hdr) else b.hdr
    ensures img.types == if swapEndian then SwapAll(b.types) else b.types
  {
    if swapEndian {
      var types := WriteSwapped(b.types, b.offs);
      return Image(SwapHeader(b.hdr), types, b.strs);
    }
    return Image(b.hdr, b.types, b.strs);
  }

  /** The file, read in native or in swapped byte order, is the object b. */
  ghost predicate Reads(img: Image, b: Btf, swapped: bool) {
    && BuiltHeader(b.hdr, ImageSize(img)) && Partition(b.types, b.offs) && b.strs == img.strs
    && img.hdr == (if swapped then SwapHeader(b.hdr) else b.hdr)
    && b.types == (if swapped then SwapAll(img.types) else img.types)
  }

  method New(img: Image) returns (err: int, b: Btf)
    ensures err == 0 ==> Partition(b.types, b.offs) && b.strs == img.strs
    ensures err == 0 ==> (|| (b.hdr == img.hdr && b.types == img.types)
                          || (b.hdr == SwapHeader(img.hdr) && b.types == SwapAll(img.types)))
    ensures forall b', swapped :: Reads(img, b', swapped) ==> err == 0 && b == b'
  {
    var h, swapped;
    err, h, swapped := ParseHeader(img.hdr, ImageSize(img));
    b := Btf(h, img.types, [], img.strs);
    forall b', swapped' | Reads(img, b', swapped')
      ensures err == 0 && h == b'.hdr && swapped == swapped'
    {
      BuiltHeaderValid(b'.hdr, ImageSize(img), swapped', img.hdr);
    }
    if err != 0 {
      return;
    }
    var types, offs := img.types, [];
    if swapped {
      err, types, offs := ParseSwapped(img.types);
    } else {
      err, offs := ParseTypeSec(img.types);
    }
    b := Btf(h, types, offs, img.strs);
    forall offs' | err == 0 && Partition(types, offs')
      ensures offs' == offs
    {
      PartitionUnique(types, offs, offs');
    }
  }

  /** Saving in either byte order and loading gives back the same object. */
  method SaveAndLoad(b: Btf, swapEndian: bool) returns (err: int, b': Btf)
    requires BtfOk(b)
    ensures err == 0 && b' == b
  {
    SwapAllInvolution(b.types);
    var img := RawData(b, swapEndian);
    assert Reads(img, b, swapEndian);
    err, b' := New(img);
  }
}
