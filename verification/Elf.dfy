/**
 Loading an ELF64 image into a buffer (lib/elf/elf.c).  Sequence and array accesses are bounds
 checked, so every header, source and destination access below is inside its object.
 */
module Elf {
  import opened Arithmetic

  const HEADER_SIZE: nat := 64
  const PROGRAM_HEADER_SIZE: nat := 56
  const PT_LOAD: nat := 1

  type Byte = b: nat | b < 256

  // ---------------------------------------------------------------- fields of the file

  // A little-endian unsigned integer.
  function Little(bytes: seq<Byte>): nat {
    if bytes == [] then 0 else bytes[0] + 256 * Little(bytes[1..])
  }

  // The n-byte field at an offset.
  function Read(image: seq<Byte>, at: nat, n: nat): nat
    requires at + n <= |image|
  {
    Little(image[at..at + n])
  }

  datatype Header = Header(
    ident: seq<Byte>, kind: nat, machine: nat, version: nat, phoff: nat, phentsize: nat, phnum: nat)

  function HeaderOf(image: seq<Byte>): Header
    requires |image| >= HEADER_SIZE
  {
    Header(image[..16], Read(image, 16, 2), Read(image, 18, 2), Read(image, 20, 4),
           Read(image, 32, 8), Read(image, 54, 2), Read(image, 56, 2))
  }

  datatype Segment = Segment(kind: nat, offset: nat, vaddr: nat, filesz: nat, memsz: nat)

  function SegmentOf(image: seq<Byte>, at: nat): Segment
    requires at + PROGRAM_HEADER_SIZE <= |image|
  {
    Segment(Read(image, at, 4), Read(image, at + 8, 8), Read(image, at + 16, 8),
            Read(image, at + 32, 8), Read(image, at + 40, 8))
  }

  // Elf64Validate; the end of the program headers is a 64-bit sum.
  predicate Validate(image: seq<Byte>) {
    && |image| >= HEADER_SIZE
    && var h := HeaderOf(image);
       && h.ident[0] == 0x7F && h.ident[1] == 0x45 && h.ident[2] == 0x4C && h.ident[3] == 0x46
       && h.ident[4] == 2 && h.ident[5] == 1 && h.ident[6] == 1
       && h.version == 1 && h.machine == 62 && (h.kind == 2 || h.kind == 3)
       && (h.phnum > 0 ==>
             && h.phentsize == PROGRAM_HEADER_SIZE
             && var end := (h.phoff + h.phnum * h.phentsize) % WORD_LIMIT; end <= |image| && end >= h.phoff)
  }

  lemma {:induction false} LittleBound(bytes: seq<Byte>)
    ensures Little(bytes) < Power(256, |bytes|)
  {
    if bytes != [] { LittleBound(bytes[1..]); }
  }

  lemma ReadBound(image: seq<Byte>, at: nat, n: nat)
    requires at + n <= |image|
    ensures Read(image, at, n) < Power(256, n)
  {
    LittleBound(image[at..at + n]);
  }

  // The wrap-around test is exact: a validated image has all its program headers inside.
  lemma HeadersInside(image: seq<Byte>)
    requires Validate(image) && |image| < WORD_LIMIT && HeaderOf(image).phnum > 0
    ensures HeaderOf(image).phoff + HeaderOf(image).phnum * PROGRAM_HEADER_SIZE <= |image|
  {
    ReadBound(image, 32, 8);
    ReadBound(image, 56, 2);
    Powers();
  }

  lemma Powers()
    ensures Power(256, 8) == WORD_LIMIT && Power(256, 2) == 0x10000
  {}

  // The segments in file order.
  function Segments(image: seq<Byte>): (segs: seq<Segment>)
    requires Validate(image) && |image| < WORD_LIMIT
    ensures |segs| == HeaderOf(image).phnum
  {
    var h := HeaderOf(image);
    if h.phnum > 0 then
      HeadersInside(image);
      seq(h.phnum, i requires 0 <= i < h.phnum => SegmentOf(image, h.phoff + i * PROGRAM_HEADER_SIZE))
    else []
  }

  // ---------------------------------------------------------------- what loading means

  // The file bytes of a segment lie inside the image.
  predicate SourceInside(seg: Segment, size: nat) {
    seg.offset + seg.filesz <= size
  }

  // The code's test, with its 64-bit subtraction.
  predicate SourceTest(seg: Segment, size: nat) {
    seg.offset <= (size - seg.filesz) % WORD_LIMIT
  }

  // The test is exact when filesz is not larger than the image, and meaningless otherwise.
  lemma SourceTestExact(seg: Segment, size: nat)
    requires size < WORD_LIMIT && seg.filesz < WORD_LIMIT
    ensures seg.filesz <= size ==> (SourceTest(seg, size) <==> SourceInside(seg, size))
    ensures seg.filesz > size ==> !SourceInside(seg, size)
    ensures SourceTest(seg, size) ==> (SourceInside(seg, size) <==> seg.filesz <= size)
  {}

  // So the code reads beyond the image exactly when p_filesz is larger than the image and the tests still pass.
  lemma ReadsBeyond(seg: Segment, imageSize: nat, base: nat, size: nat)
    requires imageSize < WORD_LIMIT
    ensures WronglyPassed(seg, imageSize, base, size) <==>
              && seg.kind == PT_LOAD && TargetOk(seg, base, size) && seg.filesz > imageSize
              && seg.offset <= WORD_LIMIT + imageSize - seg.filesz
  {
    if seg.filesz <= seg.memsz < WORD_LIMIT && seg.filesz > imageSize {
      assert (imageSize - seg.filesz) % WORD_LIMIT == WORD_LIMIT + imageSize - seg.filesz;
    }
  }

  predicate TargetOk(seg: Segment, base: nat, size: nat) {
    && seg.filesz <= seg.memsz && seg.vaddr + seg.memsz < WORD_LIMIT
    && base <= seg.vaddr && seg.vaddr + seg.memsz <= base + size
  }

  predicate Loadable(seg: Segment, imageSize: nat, base: nat, size: nat) {
    seg.kind == PT_LOAD ==> TargetOk(seg, base, size) && SourceInside(seg, imageSize)
  }

  // The code takes the segment although its bytes are not all there, and reads beyond the image.
  predicate WronglyPassed(seg: Segment, imageSize: nat, base: nat, size: nat) {
    seg.kind == PT_LOAD && TargetOk(seg, base, size) && SourceTest(seg, imageSize) && !SourceInside(seg, imageSize)
  }

  predicate Covers(seg: Segment, base: nat, i: nat) {
    seg.kind == PT_LOAD && seg.vaddr <= base + i < seg.vaddr + seg.memsz
  }

  // The byte a segment gives to buffer position i: from the file, then zeros.
  function SegmentByte(image: seq<Byte>, seg: Segment, base: nat, i: nat): Byte
    requires Covers(seg, base, i) && SourceInside(seg, |image|)
  {
    var k := base + i - seg.vaddr;
    if k < seg.filesz then image[seg.offset + k] else 0
  }

  // The buffer after one segment.
  function Put(buffer: seq<Byte>, image: seq<Byte>, seg: Segment, base: nat): (r: seq<Byte>)
    requires SourceInside(seg, |image|)
    ensures |r| == |buffer|
    ensures forall i :: 0 <= i < |buffer| ==>
              r[i] == if Covers(seg, base, i) then SegmentByte(image, seg, base, i) else buffer[i]
  {
    seq(|buffer|, i requires 0 <= i < |buffer| =>
          if Covers(seg, base, i) then SegmentByte(image, seg, base, i) else buffer[i])
  }

  ghost predicate FirstLoadable(segs: seq<Segment>, imageSize: nat, base: nat, size: nat, n: nat) {
    n <= |segs| && forall k :: 0 <= k < n ==> Loadable(segs[k], imageSize, base, size)
  }

  // The buffer after the first n program headers.
  ghost function PutFirst(buffer: seq<Byte>, image: seq<Byte>, segs: seq<Segment>, base: nat, n: nat): (r: seq<Byte>)
    requires FirstLoadable(segs, |image|, base, |buffer|, n)
    ensures |r| == |buffer|
  {
    if n == 0 then buffer
    else
      var r := PutFirst(buffer, image, segs, base, n - 1);
      assert Loadable(segs[n - 1], |image|, base, |buffer|);
      if segs[n - 1].kind == PT_LOAD then Put(r, image, segs[n - 1], base) else r
  }

  // Each byte comes from the last segment that covers it ...
  lemma {:induction false} LastSegmentWins(
      buffer: seq<Byte>, image: seq<Byte>, segs: seq<Segment>, base: nat, n: nat, i: nat, k: nat)
    requires FirstLoadable(segs, |image|, base, |buffer|, n) && i < |buffer| && k < n
    requires Covers(segs[k], base, i) && forall j :: k < j < n ==> !Covers(segs[j], base, i)
    ensures SourceInside(segs[k], |image|)
    ensures PutFirst(buffer, image, segs, base, n)[i] == SegmentByte(image, segs[k], base, i)
  {
    assert Loadable(segs[k], |image|, base, |buffer|) && Loadable(segs[n - 1], |image|, base, |buffer|);
    if k < n - 1 {
      assert !Covers(segs[n - 1], base, i);
      LastSegmentWins(buffer, image, segs, base, n - 1, i, k);
    }
  }

  // ... and bytes no segment covers are unchanged.
  lemma {:induction false} UncoveredUnchanged(
      buffer: seq<Byte>, image: seq<Byte>, segs: seq<Segment>, base: nat, n: nat, i: nat)
    requires FirstLoadable(segs, |image|, base, |buffer|, n) && i < |buffer|
    requires forall k :: 0 <= k < n ==> !Covers(segs[k], base, i)
    ensures PutFirst(buffer, image, segs, base, n)[i] == buffer[i]
  {
    if n > 0 {
      assert Loadable(segs[n - 1], |image|, base, |buffer|) && !Covers(segs[n - 1], base, i);
      UncoveredUnchanged(buffer, image, segs, base, n - 1, i);
    }
  }

  // The buffer holds the first n segments and nothing else is changed.
  ghost predicate Loaded(before: seq<Byte>, after: seq<Byte>, image: seq<Byte>, segs: seq<Segment>, base: nat, n: nat) {
    FirstLoadable(segs, |image|, base, |before|, n) && after == PutFirst(before, image, segs, base, n)
  }

  // Loading stopped at the first segment that does not fit.
  ghost predicate Stopped(before: seq<Byte>, after: seq<Byte>, image: seq<Byte>, segs: seq<Segment>, base: nat) {
    exists n :: 0 <= n < |segs| && Loaded(before, after, image, segs, base, n)
                && !Loadable(segs[n], |image|, base, |before|)
  }

  // ---------------------------------------------------------------- the same, field by field

  // Where program header k is in the file.
  function HeaderAt(image: seq<Byte>, k: nat): nat
    requires |image| >= 64
  {
    Read(image, 32, 8) + 56 * k
  }

  predicate IsHeader(image: seq<Byte>, k: nat) {
    |image| >= 64 && k < Read(image, 56, 2) && HeaderAt(image, k) + 56 <= |image|
  }

  // A loadable header, p_vaddr and p_memsz of which cover address `va`.
  predicate HeaderCovers(image: seq<Byte>, k: nat, va: nat) {
    IsHeader(image, k) &&
    var at := HeaderAt(image, k);
    Read(image, at, 4) == 1 && Read(image, at + 16, 8) <= va < Read(image, at + 16, 8) + Read(image, at + 40, 8)
  }

  // The last one that covers it.
  ghost predicate LastToCover(image: seq<Byte>, k: nat, va: nat) {
    && HeaderCovers(image, k, va)
    && forall j {:trigger HeaderCovers(image, j, va)} :: k < j && IsHeader(image, j) ==> !HeaderCovers(image, j, va)
  }

  // The byte that header k has for address va: p_filesz bytes from p_offset on, then zeros.
  predicate ByteOfHeader(image: seq<Byte>, k: nat, va: nat, b: Byte)
    requires HeaderCovers(image, k, va)
  {
    var at := HeaderAt(image, k);
    var place := va - Read(image, at + 16, 8);
    if place < Read(image, at + 32, 8)
    then Read(image, at + 8, 8) + place < |image| && b == image[Read(image, at + 8, 8) + place]
    else b == 0
  }

  // A loadable header whose bytes are in the file and whose addresses are in the buffer; others always fit.
  predicate HeaderFits(image: seq<Byte>, k: nat, base: nat, size: nat)
    requires IsHeader(image, k)
  {
    var at := HeaderAt(image, k);
    var offset, vaddr := Read(image, at + 8, 8), Read(image, at + 16, 8);
    var filesz, memsz := Read(image, at + 32, 8), Read(image, at + 40, 8);
    Read(image, at, 4) == 1 ==>
      && filesz <= memsz && offset + filesz <= |image|
      && base <= vaddr && vaddr + memsz <= base + size && vaddr + memsz < WORD_LIMIT
  }

  lemma HeaderMeans(image: seq<Byte>, k: nat)
    requires Validate(image) && |image| < WORD_LIMIT && k < Read(image, 56, 2)
    ensures IsHeader(image, k) && k < |Segments(image)|
    ensures Segments(image)[k] == SegmentOf(image, HeaderAt(image, k))
  {
    SegmentsAt(image);
  }

  lemma CoverMeans(image: seq<Byte>, k: nat, base: nat, i: nat)
    requires Validate(image) && |image| < WORD_LIMIT && IsHeader(image, k)
    ensures k < |Segments(image)| && (HeaderCovers(image, k, base + i) <==> Covers(Segments(image)[k], base, i))
  {
    HeaderMeans(image, k);
  }

  lemma FitMeans(image: seq<Byte>, k: nat, base: nat, size: nat)
    requires Validate(image) && |image| < WORD_LIMIT && IsHeader(image, k)
    ensures k < |Segments(image)|
    ensures HeaderFits(image, k, base, size) <==> Loadable(Segments(image)[k], |image|, base, size)
  {
    HeaderMeans(image, k);
  }

  // Every header fits.
  ghost predicate AllFit(image: seq<Byte>, base: nat, size: nat) {
    forall k {:trigger HeaderFits(image, k, base, size)} :: 0 <= k && IsHeader(image, k) ==>
      HeaderFits(image, k, base, size)
  }

  lemma AllFitMeans(image: seq<Byte>, base: nat, size: nat)
    requires Validate(image) && |image| < WORD_LIMIT
    ensures AllFit(image, base, size) <==> FirstLoadable(Segments(image), |image|, base, size, |Segments(image)|)
  {
    var segs := Segments(image);
    if AllFit(image, base, size) {
      forall k | 0 <= k < |segs| ensures Loadable(segs[k], |image|, base, size) {
        HeaderMeans(image, k);
        FitMeans(image, k, base, size);
      }
    }
    if FirstLoadable(segs, |image|, base, size, |segs|) {
      forall k | 0 <= k && IsHeader(image, k) ensures HeaderFits(image, k, base, size) {
        FitMeans(image, k, base, size);
      }
    }
  }

  // What a buffer holds after a successful load: at each place the byte of the last header that covers it, and what
  // was there before where none does.
  ghost predicate HoldsImage(image: seq<Byte>, base: nat, before: seq<Byte>, after: seq<Byte>) {
    && |after| == |before|
    && (forall i, k {:trigger RightByte(image, k, base, i, after[i])} :: 0 <= i < |after| && 0 <= k ==>
          RightByte(image, k, base, i, after[i]))
    && (forall i {:trigger after[i]} :: 0 <= i < |after| && NoneCovers(image, base + i) ==> after[i] == before[i])
  }

  // Byte b is at place i of the buffer: if header k is the last to cover the place, its byte.
  ghost predicate RightByte(image: seq<Byte>, k: nat, base: nat, i: nat, b: Byte) {
    LastToCover(image, k, base + i) ==> ByteOfHeader(image, k, base + i, b)
  }

  ghost predicate NoneCovers(image: seq<Byte>, va: nat) {
    forall k {:trigger HeaderCovers(image, k, va)} :: 0 <= k && IsHeader(image, k) ==> !HeaderCovers(image, k, va)
  }

  lemma LoadedMeans(image: seq<Byte>, base: nat, before: seq<Byte>, after: seq<Byte>)
    requires Validate(image) && |image| < WORD_LIMIT
    requires Loaded(before, after, image, Segments(image), base, |Segments(image)|)
    ensures HoldsImage(image, base, before, after)
  {
    forall i, k | 0 <= i < |after| && 0 <= k ensures RightByte(image, k, base, i, after[i]) {
      if LastToCover(image, k, base + i) { LoadedByte(image, base, before, i, k); }
    }
    forall i | 0 <= i < |after| && NoneCovers(image, base + i) ensures after[i] == before[i] {
      UnloadedByte(image, base, before, i);
    }
  }

  lemma LoadedByte(image: seq<Byte>, base: nat, before: seq<Byte>, i: nat, k: nat)
    requires Validate(image) && |image| < WORD_LIMIT && i < |before| && LastToCover(image, k, base + i)
    requires FirstLoadable(Segments(image), |image|, base, |before|, |Segments(image)|)
    ensures ByteOfHeader(image, k, base + i, PutFirst(before, image, Segments(image), base, |Segments(image)|)[i])
  {
    var segs := Segments(image);
    CoverMeans(image, k, base, i);
    forall j | k < j < |segs| ensures !Covers(segs[j], base, i) {
      HeaderMeans(image, j);
      CoverMeans(image, j, base, i);
    }
    LastSegmentWins(before, image, segs, base, |segs|, i, k);
    HeaderMeans(image, k);
  }

  lemma UnloadedByte(image: seq<Byte>, base: nat, before: seq<Byte>, i: nat)
    requires Validate(image) && |image| < WORD_LIMIT && i < |before| && NoneCovers(image, base + i)
    requires FirstLoadable(Segments(image), |image|, base, |before|, |Segments(image)|)
    ensures PutFirst(before, image, Segments(image), base, |Segments(image)|)[i] == before[i]
  {
    var segs := Segments(image);
    forall j | 0 <= j < |segs| ensures !Covers(segs[j], base, i) {
      HeaderMeans(image, j);
      CoverMeans(image, j, base, i);
    }
    UncoveredUnchanged(before, image, segs, base, |segs|, i);
  }

  // ---------------------------------------------------------------- the code

  method CopyBytes(buffer: array<Byte>, at: nat, image: seq<Byte>, from: nat, n: nat)
    requires at + n <= buffer.Length && from + n <= |image|
    modifies buffer
    ensures forall i :: 0 <= i < buffer.Length ==>
              buffer[i] == if at <= i < at + n then image[from + i - at] else old(buffer[i])
  {
    for k := 0 to n
      invariant forall i :: 0 <= i < buffer.Length ==>
                  buffer[i] == if at <= i < at + k then image[from + i - at] else old(buffer[i])
    {
      buffer[at + k] := image[from + k];
    }
  }

  method ZeroBytes(buffer: array<Byte>, at: nat, n: nat)
    requires at + n <= buffer.Length
    modifies buffer
    ensures forall i :: 0 <= i < buffer.Length ==> buffer[i] == if at <= i < at + n then 0 else old(buffer[i])
  {
    for k := 0 to n
      invariant forall i :: 0 <= i < buffer.Length ==> buffer[i] == if at <= i < at + k then 0 else old(buffer[i])
    {
      buffer[at + k] := 0;
    }
  }

  method LoadSegment(image: seq<Byte>, buffer: array<Byte>, base: nat, seg: Segment) returns (ok: bool)
    requires |image| < WORD_LIMIT && base < WORD_LIMIT && seg.memsz < WORD_LIMIT
    requires !WronglyPassed(seg, |image|, base, buffer.Length)
    modifies buffer
    ensures ok == Loadable(seg, |image|, base, buffer.Length)
    ensures buffer[..] == if ok && seg.kind == PT_LOAD then Put(old(buffer[..]), image, seg, base) else old(buffer[..])
  {
    if seg.kind != PT_LOAD {
      return true;
    }
    if seg.filesz > seg.memsz {
      return false;
    }
    SourceTestExact(seg, |image|);
    if seg.offset > (|image| - seg.filesz) % WORD_LIMIT {
      return false;
    }
    if seg.vaddr > WORD_LIMIT - 1 - seg.memsz {
      return false;
    }
    var segLow, segHigh := seg.vaddr, seg.vaddr + seg.memsz;
    if segLow < base || segHigh - base > buffer.Length {
      return false;
    }
    var offset := seg.vaddr - base;
    if seg.filesz > 0 {
      CopyBytes(buffer, offset, image, seg.offset, seg.filesz);
    }
    if seg.memsz > seg.filesz {
      ZeroBytes(buffer, offset + seg.filesz, seg.memsz - seg.filesz);
    }
    assert buffer[..] == Put(old(buffer[..]), image, seg, base);
    ok := true;
  }

  // No segment that the loop comes to makes it read beyond the image.
  ghost predicate ReadsInside(segs: seq<Segment>, imageSize: nat, base: nat, size: nat) {
    forall k :: 0 <= k < |segs| && FirstLoadable(segs, imageSize, base, size, k) ==>
      !WronglyPassed(segs[k], imageSize, base, size)
  }

  // Elf64LoadToBuffer. It succeeds exactly when there is a program header and every loadable one fits, and the buffer
  // then holds the bytes of the image as its headers say;
  // when it stops early, the segments before the bad one have been loaded. Images for which the code would
  // read beyond their end, and only those, are excluded.
  method LoadToBuffer(image: seq<Byte>, buffer: array<Byte>, base: nat) returns (ok: bool)
    requires |image| < WORD_LIMIT && base < WORD_LIMIT
    requires Validate(image) ==> ReadsInside(Segments(image), |image|, base, buffer.Length)
    modifies buffer
    ensures !Validate(image) ==> !ok && buffer[..] == old(buffer[..])
    ensures Validate(image) ==>
              (ok <==> Segments(image) != []
                       && FirstLoadable(Segments(image), |image|, base, buffer.Length, |Segments(image)|))
    ensures Validate(image) ==> (ok <==> Read(image, 56, 2) > 0 && AllFit(image, base, buffer.Length))
    ensures ok ==> HoldsImage(image, base, old(buffer[..]), buffer[..])
    ensures ok ==> Loaded(old(buffer[..]), buffer[..], image, Segments(image), base, |Segments(image)|)
    ensures !ok && Validate(image) && Segments(image) != [] ==>
              Stopped(old(buffer[..]), buffer[..], image, Segments(image), base)
    ensures !ok && Validate(image) && Segments(image) == [] ==> buffer[..] == old(buffer[..])
  {
    if !Validate(image) {
      return false;
    }
    var phoff, phnum := HeaderOf(image).phoff, HeaderOf(image).phnum;
    ghost var segs, before := Segments(image), buffer[..];
    if phnum == 0 {
      return false;
    }
    HeadersInside(image);
    SegmentsAt(image);
    ok := LoadSegments(image, phoff, phnum, segs, buffer, base);
    AllFitMeans(image, base, buffer.Length);
    if ok { LoadedMeans(image, base, before, buffer[..]); }
  }

  lemma SegmentsAt(image: seq<Byte>)
    requires Validate(image) && |image| < WORD_LIMIT && HeaderOf(image).phnum > 0
    ensures HeaderOf(image).phoff + HeaderOf(image).phnum * PROGRAM_HEADER_SIZE <= |image|
    ensures AreSegments(image, HeaderOf(image).phoff, Segments(image))
  {
    HeadersInside(image);
  }

  ghost predicate AreSegments(image: seq<Byte>, phoff: nat, segs: seq<Segment>)
    requires phoff + |segs| * PROGRAM_HEADER_SIZE <= |image|
  {
    forall k {:trigger segs[k]} :: 0 <= k < |segs| ==> segs[k] == SegmentOf(image, phoff + k * PROGRAM_HEADER_SIZE)
  }

  lemma LoadedNext(
      before: seq<Byte>, mid: seq<Byte>, after: seq<Byte>, image: seq<Byte>, segs: seq<Segment>, base: nat, n: nat)
    requires n < |segs| && Loaded(before, mid, image, segs, base, n) && Loadable(segs[n], |image|, base, |before|)
    requires after == if segs[n].kind == PT_LOAD then Put(mid, image, segs[n], base) else mid
    ensures Loaded(before, after, image, segs, base, n + 1)
  {}

  lemma StoppedAt(
      before: seq<Byte>, after: seq<Byte>, image: seq<Byte>, segs: seq<Segment>, base: nat, n: nat)
    requires n < |segs| && Loaded(before, after, image, segs, base, n) && !Loadable(segs[n], |image|, base, |before|)
    ensures Stopped(before, after, image, segs, base) && !FirstLoadable(segs, |image|, base, |before|, |segs|)
  {}

  lemma NextSegment(image: seq<Byte>, phoff: nat, segs: seq<Segment>, base: nat, size: nat, i: nat)
    requires i < |segs| && phoff + |segs| * PROGRAM_HEADER_SIZE <= |image| && AreSegments(image, phoff, segs)
    requires ReadsInside(segs, |image|, base, size) && FirstLoadable(segs, |image|, base, size, i)
    ensures phoff + i * PROGRAM_HEADER_SIZE + PROGRAM_HEADER_SIZE <= |image|
    ensures segs[i] == SegmentOf(image, phoff + i * PROGRAM_HEADER_SIZE)
    ensures !WronglyPassed(segs[i], |image|, base, size)
  {}

  // The loop over the program headers.
  method LoadSegments(
      image: seq<Byte>, phoff: nat, phnum: nat, ghost segs: seq<Segment>, buffer: array<Byte>, base: nat)
      returns (ok: bool)
    requires |image| < WORD_LIMIT && base < WORD_LIMIT
    requires |segs| == phnum && phoff + phnum * PROGRAM_HEADER_SIZE <= |image|
    requires AreSegments(image, phoff, segs) && ReadsInside(segs, |image|, base, buffer.Length)
    modifies buffer
    ensures ok <==> FirstLoadable(segs, |image|, base, buffer.Length, phnum)
    ensures if ok then Loaded(old(buffer[..]), buffer[..], image, segs, base, phnum)
            else Stopped(old(buffer[..]), buffer[..], image, segs, base)
  {
    var i := 0;
    ghost var start := buffer[..];
    while i < phnum
      invariant i <= phnum && Loaded(start, buffer[..], image, segs, base, i)
    {
      ok := LoadNext(image, phoff, segs, buffer, base, i, start);
      if !ok {
        return false;
      }
      i := i + 1;
    }
    ok := true;
  }

  // One turn of the loop.
  method LoadNext(
      image: seq<Byte>, phoff: nat, ghost segs: seq<Segment>, buffer: array<Byte>, base: nat, i: nat,
      ghost start: seq<Byte>)
      returns (ok: bool)
    requires |image| < WORD_LIMIT && base < WORD_LIMIT && i < |segs| && |start| == buffer.Length
    requires phoff + |segs| * PROGRAM_HEADER_SIZE <= |image| && AreSegments(image, phoff, segs)
    requires ReadsInside(segs, |image|, base, buffer.Length) && Loaded(start, buffer[..], image, segs, base, i)
    modifies buffer
    ensures if ok then Loaded(start, buffer[..], image, segs, base, i + 1)
            else Stopped(start, buffer[..], image, segs, base)
                 && !FirstLoadable(segs, |image|, base, buffer.Length, |segs|)
  {
    ghost var before := buffer[..];
    NextSegment(image, phoff, segs, base, buffer.Length, i);
    ok := LoadHeader(image, phoff + i * PROGRAM_HEADER_SIZE, buffer, base, segs[i]);
    if ok {
      LoadedNext(start, before, buffer[..], image, segs, base, i);
    } else {
      StoppedAt(start, buffer[..], image, segs, base, i);
    }
  }

  method LoadHeader(image: seq<Byte>, at: nat, buffer: array<Byte>, base: nat, ghost want: Segment) returns (ok: bool)
    requires |image| < WORD_LIMIT && base < WORD_LIMIT && at + PROGRAM_HEADER_SIZE <= |image|
    requires want == SegmentOf(image, at) && !WronglyPassed(want, |image|, base, buffer.Length)
    modifies buffer
    ensures ok == Loadable(want, |image|, base, buffer.Length)
    ensures buffer[..]
            == if ok && want.kind == PT_LOAD then Put(old(buffer[..]), image, want, base) else old(buffer[..])
  {
    var seg := SegmentOf(image, at);
    MemszBound(image, at);
    ok := LoadSegment(image, buffer, base, seg);
  }

  lemma MemszBound(image: seq<Byte>, at: nat)
    requires at + PROGRAM_HEADER_SIZE <= |image|
    ensures SegmentOf(image, at).memsz < WORD_LIMIT
  {
    ReadBound(image, at + 40, 8);
    Powers();
  }
}
