/**
 An image that Elf64LoadToBuffer should refuse and does not.
 */
module ElfSample {
  import opened Elf

  // A header, and one loadable segment whose file size is one more than the image; every field fits in a byte.
  function OversizedByte(i: nat): Byte {
    if i == 0 then 0x7F else if i == 1 then 0x45 else if i == 2 then 0x4C else if i == 3 then 0x46
    else if i == 4 then 2 else if i == 5 || i == 6 then 1
    else if i == 16 then 2 else if i == 18 then 62 else if i == 20 then 1
    else if i == 32 then 64 else if i == 54 then 56 else if i == 56 then 1
    else if i == 64 then 1 else if i == 96 || i == 104 then 121 else 0
  }

  predicate IsOversized(image: seq<Byte>) {
    |image| == 120 && forall i :: 0 <= i < 120 ==> image[i] == OversizedByte(i)
  }

  function OversizedImage(): (image: seq<Byte>)
    ensures IsOversized(image)
  {
    seq(120, i requires 0 <= i < 120 => OversizedByte(i))
  }

  lemma {:induction false} ZeroTail(bytes: seq<Byte>)
    requires forall i :: 0 <= i < |bytes| ==> bytes[i] == 0
    ensures Little(bytes) == 0
  {
    if bytes != [] { ZeroTail(bytes[1..]); }
  }

  // A field whose upper bytes are zero.
  lemma ByteField(image: seq<Byte>, at: nat, n: nat)
    requires IsOversized(image) && 0 < n && at + n <= 120 && forall i: nat :: at < i < at + n ==> OversizedByte(i) == 0
    ensures Read(image, at, n) == OversizedByte(at)
  {
    var bytes := image[at..at + n];
    ZeroTail(bytes[1..]);
  }

  lemma OversizedKind(image: seq<Byte>)
    requires IsOversized(image)
    ensures Read(image, 16, 2) == 2 && Read(image, 18, 2) == 62 && Read(image, 20, 4) == 1
  {
    ByteField(image, 16, 2);
    ByteField(image, 18, 2);
    ByteField(image, 20, 4);
  }

  lemma OversizedTable(image: seq<Byte>)
    requires IsOversized(image)
    ensures Read(image, 32, 8) == 64 && Read(image, 54, 2) == 56 && Read(image, 56, 2) == 1
  {
    ByteField(image, 32, 8);
    ByteField(image, 54, 2);
    ByteField(image, 56, 2);
  }

  lemma OversizedValid(image: seq<Byte>)
    requires IsOversized(image)
    ensures Validate(image) && HeaderOf(image).phoff == 64 && HeaderOf(image).phnum == 1
  {
    OversizedKind(image);
    OversizedTable(image);
  }

  lemma OversizedSegment(image: seq<Byte>)
    requires IsOversized(image)
    ensures SegmentOf(image, 64) == Segment(PT_LOAD, 0, 0, 121, 121)
  {
    ByteField(image, 64, 4);
    ByteField(image, 72, 8);
    ByteField(image, 80, 8);
    ByteField(image, 96, 8);
    ByteField(image, 104, 8);
  }

  lemma OversizedPasses(image: seq<Byte>)
    requires IsOversized(image)
    ensures Validate(image) && |Segments(image)| == 1 && WronglyPassed(Segments(image)[0], |image|, 0, 121)
  {
    OversizedValid(image);
    OversizedSegment(image);
  }

  // It is a valid image whose one segment passes every test although its bytes are not all there.
  lemma SourceTestCanFail()
    ensures var image := OversizedImage();
            Validate(image) && |Segments(image)| == 1 && WronglyPassed(Segments(image)[0], |image|, 0, 121)
  {
    OversizedPasses(OversizedImage());
  }
}
