/**
 The ELF64 structures as they are laid out in a file, field after field, each least significant byte first
 (include/lib/elf/elf.h): what the loader reads is what such a file says.
 */
module ElfFormat {
  import opened Arithmetic
  import opened Elf

  // Elf64_Ehdr after its 16 identification bytes, and Elf64_Phdr.
  datatype FileHeader = FileHeader(
    ident: seq<Byte>, kind: nat, machine: nat, version: nat, entry: nat, phoff: nat, shoff: nat, flags: nat,
    ehsize: nat, phentsize: nat, phnum: nat, shentsize: nat, shnum: nat, shstrndx: nat)

  datatype ProgramHeader = ProgramHeader(
    kind: nat, flags: nat, offset: nat, vaddr: nat, paddr: nat, filesz: nat, memsz: nat, align: nat)

  // A number and how many bytes it takes.
  datatype Field = Field(value: nat, width: nat)

  function FileFields(h: FileHeader): seq<Field> {
    [Field(h.kind, 2), Field(h.machine, 2), Field(h.version, 4), Field(h.entry, 8), Field(h.phoff, 8),
     Field(h.shoff, 8), Field(h.flags, 4), Field(h.ehsize, 2), Field(h.phentsize, 2), Field(h.phnum, 2),
     Field(h.shentsize, 2), Field(h.shnum, 2), Field(h.shstrndx, 2)]
  }

  function ProgramFields(p: ProgramHeader): seq<Field> {
    [Field(p.kind, 4), Field(p.flags, 4), Field(p.offset, 8), Field(p.vaddr, 8), Field(p.paddr, 8),
     Field(p.filesz, 8), Field(p.memsz, 8), Field(p.align, 8)]
  }

  predicate Fit(fields: seq<Field>) {
    forall k :: 0 <= k < |fields| ==> fields[k].value < Power(256, fields[k].width)
  }

  // The number n in w bytes.
  function Bytes(n: nat, w: nat): (bytes: seq<Byte>)
    ensures |bytes| == w
  {
    if w == 0 then [] else [n % 256] + Bytes(n / 256, w - 1)
  }

  // How many bytes the fields before field k take.
  function Place(fields: seq<Field>, k: nat): nat
    requires k <= |fields|
  {
    if k == 0 then 0 else Place(fields, k - 1) + fields[k - 1].width
  }

  function Layout(fields: seq<Field>): seq<Byte> {
    if fields == [] then [] else Bytes(fields[0].value, fields[0].width) + Layout(fields[1..])
  }

  lemma {:induction false} PlaceRest(fields: seq<Field>, k: nat)
    requires 0 < k <= |fields|
    ensures Place(fields, k) == fields[0].width + Place(fields[1..], k - 1)
  {
    if k > 1 { PlaceRest(fields, k - 1); }
  }

  lemma {:induction false} LayoutLength(fields: seq<Field>)
    ensures |Layout(fields)| == Place(fields, |fields|)
    decreases |fields|
  {
    if fields != [] {
      LayoutLength(fields[1..]);
      PlaceRest(fields, |fields|);
    }
  }

  // The bytes of a number read back as the number.
  lemma {:induction false} LittleOfBytes(n: nat, w: nat)
    requires n < Power(256, w)
    ensures Little(Bytes(n, w)) == n
  {
    if w > 0 {
      LittleOfBytes(n / 256, w - 1);
      assert Bytes(n, w)[1..] == Bytes(n / 256, w - 1);
    }
  }

  // These bytes of the image are these fields.
  predicate Holds(image: seq<Byte>, at: nat, fields: seq<Field>) {
    Fit(fields) && at + |Layout(fields)| <= |image| && image[at..at + |Layout(fields)|] == Layout(fields)
  }

  lemma FirstField(image: seq<Byte>, at: nat, fields: seq<Field>)
    requires fields != [] && Holds(image, at, fields)
    ensures at + fields[0].width <= |image| && Read(image, at, fields[0].width) == fields[0].value
    ensures Holds(image, at + fields[0].width, fields[1..])
  {
    var w, all, n := fields[0].width, Layout(fields), |Layout(fields)|;
    assert image[at..at + w] == image[at..at + n][..w] == all[..w] == Bytes(fields[0].value, w);
    assert image[at + w..at + n] == image[at..at + n][w..] == all[w..] == Layout(fields[1..]);
    LittleOfBytes(fields[0].value, w);
  }

  // Every field is read where the widths of those before it put it.
  lemma {:induction false} FieldRead(image: seq<Byte>, at: nat, fields: seq<Field>, k: nat)
    requires k < |fields| && Holds(image, at, fields)
    ensures at + Place(fields, k) + fields[k].width <= |image|
    ensures Read(image, at + Place(fields, k), fields[k].width) == fields[k].value
    decreases k
  {
    FirstField(image, at, fields);
    if k > 0 {
      FieldRead(image, at + fields[0].width, fields[1..], k - 1);
      PlaceRest(fields, k);
    }
  }

  lemma ProgramPlaces(p: ProgramHeader)
    ensures var f := ProgramFields(p);
            && Place(f, 0) == 0 && Place(f, 2) == 8 && Place(f, 3) == 16 && Place(f, 5) == 32 && Place(f, 6) == 40
            && |Layout(f)| == 56
  {
    var f := ProgramFields(p);
    LayoutLength(f);
    assert Place(f, 1) == 4 && Place(f, 2) == 8 && Place(f, 3) == 16 && Place(f, 4) == 24;
    assert Place(f, 5) == 32 && Place(f, 6) == 40 && Place(f, 7) == 48 && Place(f, 8) == 56;
  }

  // The loader's record of a program header holds that header's type, offset, address and sizes.
  lemma ProgramHeaderRead(image: seq<Byte>, at: nat, p: ProgramHeader)
    requires Holds(image, at, ProgramFields(p))
    ensures at + PROGRAM_HEADER_SIZE <= |image|
    ensures SegmentOf(image, at) == Segment(p.kind, p.offset, p.vaddr, p.filesz, p.memsz)
  {
    var f := ProgramFields(p);
    ProgramPlaces(p);
    FieldRead(image, at, f, 0);
    FieldRead(image, at, f, 2);
    FieldRead(image, at, f, 3);
    FieldRead(image, at, f, 5);
    FieldRead(image, at, f, 6);
  }

  // A file that starts with this header.
  predicate StartsWith(image: seq<Byte>, h: FileHeader) {
    |h.ident| == 16 && |image| >= 64 && image[..16] == h.ident && Holds(image, 16, FileFields(h))
  }

  lemma FilePlaces(h: FileHeader)
    ensures var f := FileFields(h);
            && Place(f, 0) == 0 && Place(f, 1) == 2 && Place(f, 2) == 4 && Place(f, 4) == 16
            && Place(f, 8) == 38 && Place(f, 9) == 40 && |Layout(f)| == 48
  {
    var f := FileFields(h);
    LayoutLength(f);
    assert Place(f, 1) == 2 && Place(f, 2) == 4 && Place(f, 3) == 8 && Place(f, 4) == 16 && Place(f, 5) == 24;
    assert Place(f, 6) == 32 && Place(f, 7) == 36 && Place(f, 8) == 38 && Place(f, 9) == 40 && Place(f, 10) == 42;
    assert Place(f, 11) == 44 && Place(f, 12) == 46 && Place(f, 13) == 48;
  }

  lemma FileHeaderRead(image: seq<Byte>, h: FileHeader)
    requires StartsWith(image, h)
    ensures HeaderOf(image) == Header(h.ident, h.kind, h.machine, h.version, h.phoff, h.phentsize, h.phnum)
  {
    var f := FileFields(h);
    FilePlaces(h);
    FieldRead(image, 16, f, 0);
    FieldRead(image, 16, f, 1);
    FieldRead(image, 16, f, 2);
    FieldRead(image, 16, f, 4);
    FieldRead(image, 16, f, 8);
    FieldRead(image, 16, f, 9);
  }

  // A file is valid exactly when it is a little-endian ELF64 program for x86-64, fixed or position-independent, with
  // its program headers of the right size and all inside the file.
  lemma ValidExactly(image: seq<Byte>, h: FileHeader)
    requires StartsWith(image, h) && |image| < WORD_LIMIT
    ensures Validate(image) <==>
              && h.ident[..7] == [0x7F, 'E' as int, 'L' as int, 'F' as int, 2, 1, 1]
              && h.version == 1 && h.machine == 62 && (h.kind == 2 || h.kind == 3)
              && (h.phnum > 0 ==> h.phentsize == 56 && h.phoff + h.phnum * 56 <= |image|)
  {
    FileHeaderRead(image, h);
    if Validate(image) && h.phnum > 0 { HeadersInside(image); }
  }
}
