/**
 The bounded PE reader (`Image`, `_ProofImage`). Layout: Microsoft PE Format, "Section Table" and
 "The .pdata Section".
 */
module PeImage {
  import opened Wrappers
  import opened Bytes
  import opened CallbackReasons
  import Unwind

  const IMAGE_CAP := 64 * 1024 * 1024
  const CODE_CAP := 32 * 1024
  const EXECUTE := 0x2000_0000
  const WRITE := 0x8000_0000

  datatype Section = Section(rva: nat, virtualSize: nat, rawSize: nat, raw: nat, flags: nat) {
    function Extent(): nat {
      if virtualSize < rawSize then rawSize else virtualSize
    }

    /** [at, at + size) lies in the section; `rawOnly` leaves out what only exists in memory. */
    predicate Holds(at: int, size: int, rawOnly: bool) {
      rva <= at && at + size <= rva + (if rawOnly then rawSize else Extent())
    }
  }

  datatype Headers = Headers(headerEnd: nat, base: nat, exceptionRva: nat, exceptionSize: nat, sections: seq<Section>)

  /** A retained fragment of the image, at its relative address. */
  datatype Region = Region(base: nat, data: seq<byte>) {
    predicate Holds(at: int, size: int) {
      base <= at && at + size <= base + |data|
    }
  }

  /** With `regions == None` the image answers from `data`, otherwise from the fragments. */
  datatype Image = Image(data: seq<byte>, fileSize: int, headers: Headers, regions: Option<seq<Region>>) {
    ghost predicate Valid() {
      regions.None? ==>
        && fileSize == |data|
        && forall s | s in headers.sections :: s.raw + s.rawSize <= |data|
    }
  }

  // ----- headers ----------------------------------------------------------------------------------

  function ReadSection(data: seq<byte>, pos: nat): Section
    requires pos + 40 <= |data|
  {
    Section(U32(data, pos + 12), U32(data, pos + 8), U32(data, pos + 16), U32(data, pos + 20), U32(data, pos + 36))
  }

  predicate Disjoint(a: Section, b: Section) {
    a.Extent() == 0 || b.Extent() == 0 || a.rva + a.Extent() <= b.rva || b.rva + b.Extent() <= a.rva
  }

  function CheckSection(section: Section, fileSize: int, before: seq<Section>): Outcome<Reason> {
    if section.raw + section.rawSize > fileSize then Fail(SectionFileRange)
    else if section.rva + section.Extent() > 0x1_0000_0000 then Fail(SectionRvaOverflow)
    else Need(forall other | other in before :: Disjoint(section, other), OverlappingSectionRanges)
  }

  function ParseSections(data: seq<byte>, table: nat, count: nat, fileSize: int, before: seq<Section>)
    : (r: Result<seq<Section>, Reason>)
    requires table + 40 * count <= |data| && |before| <= count
    decreases count - |before|
  {
    if |before| == count then Ok(before)
    else
      var section := ReadSection(data, table + 40 * |before|);
      :- CheckSection(section, fileSize, before);
      ParseSections(data, table, count, fileSize, before + [section])
  }

  /** The fixed part of the headers; `table` is the position of the section table. */
  datatype Layout = Layout(table: nat, count: nat, base: nat, exceptionRva: nat, exceptionSize: nat)

  function ParseLayout(data: seq<byte>, fileSize: int): (r: Result<Layout, Reason>)
    ensures r.Ok? ==> 168 <= r.value.table && r.value.table + 40 * r.value.count <= |data| <= fileSize
                      && 1 <= r.value.count <= 96 && r.value.table <= 0x20_0000 - 0x1_0000
    ensures r.Ok? ==> 64 <= r.value.table + 40 * r.value.count && U32(data, 60) + 168 <= r.value.table
  {
    if !(|data| <= fileSize <= IMAGE_CAP) then Refused(CallbackFileSize)
    else if |data| < 64 || data[..2] != [0x4d, 0x5a] then Refused(DosHeader)
    else
      var nt := U32(data, 0x3c);
      :- Need(nt <= 0x10_0000 && nt + 24 <= |data| && data[nt..nt + 4] == [0x50, 0x45, 0, 0], PeHeader);
      var machine, count, size, opt := U16(data, nt + 4), U16(data, nt + 6), U16(data, nt + 20), nt + 24;
      :- Need(machine == 0x8664 && 1 <= count <= 96 && size >= 144 && opt + size + 40 * count <= |data|, Reason.PeLayout);
      :- Need(U16(data, opt) == 0x20b, Pe32Plus);
      :- Need(U32(data, opt + 108) >= 4, ExceptionDirectoryRequired);
      Ok(Layout(opt + size, count, U64(data, opt + 24), U32(data, opt + 136), U32(data, opt + 140)))
  }

  function ParseHeaders(data: seq<byte>, fileSize: int): (r: Result<Headers, Reason>)
    ensures r.Ok? ==> 64 <= r.value.headerEnd <= |data| <= fileSize <= IMAGE_CAP
                      && r.value.headerEnd <= 0x20_0000
  {
    var layout :- ParseLayout(data, fileSize);
    var sections :- ParseSections(data, layout.table, layout.count, fileSize, []);
    Ok(Headers(layout.table + 40 * layout.count, layout.base, layout.exceptionRva, layout.exceptionSize, sections))
  }

  /** The accepted section table: in the file, in the address space, and pairwise disjoint. */
  ghost predicate SectionsValid(sections: seq<Section>, fileSize: int) {
    && (forall s | s in sections :: s.raw + s.rawSize <= fileSize && s.rva + s.Extent() <= 0x1_0000_0000)
    && (forall i, j | 0 <= i < j < |sections| :: Disjoint(sections[j], sections[i]))
  }

  lemma {:induction false} ParsedSectionsValid(data: seq<byte>, table: nat, count: nat, fileSize: int, before: seq<Section>)
    requires table + 40 * count <= |data| && |before| <= count && SectionsValid(before, fileSize)
    requires ParseSections(data, table, count, fileSize, before).Ok?
    ensures SectionsValid(ParseSections(data, table, count, fileSize, before).value, fileSize)
    decreases count - |before|
  {
    hide ReadSection, Disjoint;
    if |before| < count {
      var section := ReadSection(data, table + 40 * |before|);
      ParsedSectionsValid(data, table, count, fileSize, before + [section]);
    }
  }

  lemma SectionPrefix(data: seq<byte>, pos: nat, end: nat)
    requires pos + 40 <= end <= |data|
    ensures ReadSection(data[..end], pos) == ReadSection(data, pos)
  {
    hide U32;
    ReadsPrefix(data, end, pos + 8);
    ReadsPrefix(data, end, pos + 12);
    ReadsPrefix(data, end, pos + 16);
    ReadsPrefix(data, end, pos + 20);
    ReadsPrefix(data, end, pos + 36);
  }

  lemma {:induction false} ParseSectionsPrefix(data: seq<byte>, table: nat, count: nat, fileSize: int, before: seq<Section>,
                                               end: nat)
    requires table + 40 * count <= end <= |data| && |before| <= count
    ensures ParseSections(data[..end], table, count, fileSize, before)
         == ParseSections(data, table, count, fileSize, before)
    decreases count - |before|
  {
    hide ReadSection, CheckSection;
    if |before| < count {
      var pos := table + 40 * |before|;
      SectionPrefix(data, pos, end);
      ParseSectionsPrefix(data, table, count, fileSize, before + [ReadSection(data, pos)], end);
    }
  }

  lemma ParseLayoutPrefix(data: seq<byte>, fileSize: int, end: nat)
    requires ParseLayout(data, fileSize).Ok?
    requires var l := ParseLayout(data, fileSize).value; l.table + 40 * l.count == end
    ensures ParseLayout(data[..end], fileSize) == ParseLayout(data, fileSize)
  {
    hide U16, U32, U64;
    ReadsPrefix(data, end, 0x3c);
    var nt := U32(data, 0x3c);
    assert data[..end][..2] == data[..2] && data[..end][nt..nt + 4] == data[nt..nt + 4];
    ReadsPrefix(data, end, nt + 4);
    ReadsPrefix(data, end, nt + 6);
    ReadsPrefix(data, end, nt + 20);
    ReadsPrefix(data, end, nt + 24);
    ReadsPrefix(data, end, nt + 48);
    ReadsPrefix(data, end, nt + 132);
    ReadsPrefix(data, end, nt + 160);
    ReadsPrefix(data, end, nt + 164);
  }

  /** The headers alone parse to the headers of the whole image. */
  lemma HeadersSuffice(data: seq<byte>, fileSize: int)
    requires ParseHeaders(data, fileSize).Ok?
    ensures var h := ParseHeaders(data, fileSize).value; ParseHeaders(data[..h.headerEnd], fileSize) == Ok(h)
  {
    hide ParseLayout;
    var h := ParseHeaders(data, fileSize).value;
    var l := ParseLayout(data, fileSize).value;
    ParseLayoutPrefix(data, fileSize, h.headerEnd);
    ParseSectionsPrefix(data, l.table, l.count, fileSize, [], h.headerEnd);
  }

  /** `Image.__init__`: the loop that fills the section list. */
  method LoadHeaders(data: seq<byte>, fileSize: int) returns (r: Result<Headers, Reason>)
    ensures r == ParseHeaders(data, fileSize)
    ensures r.Ok? ==> SectionsValid(r.value.sections, fileSize)
  {
    hide ParseLayout, ReadSection, CheckSection, SectionsValid;
    var layout := ParseLayout(data, fileSize);
    if layout.Refused? {
      return Refused(layout.reason);
    }
    var table, count := layout.value.table, layout.value.count;
    var sections: seq<Section> := [];
    while |sections| < count
      invariant |sections| <= count
      invariant ParseSections(data, table, count, fileSize, []) == ParseSections(data, table, count, fileSize, sections)
    {
      var section := ReadSection(data, table + 40 * |sections|);
      var checked := CheckSection(section, fileSize, sections);
      if checked.Fail? {
        return Refused(checked.error);
      }
      sections := sections + [section];
    }
    NoSections(fileSize);
    ParsedSectionsValid(data, table, count, fileSize, []);
    r := Ok(Headers(table + 40 * count, layout.value.base, layout.value.exceptionRva, layout.value.exceptionSize, sections));
  }

  lemma NoSections(fileSize: int)
    ensures SectionsValid([], fileSize)
  {
  }

  // ----- queries ----------------------------------------------------------------------------------

  function Holding(sections: seq<Section>, at: int, size: int, rawOnly: bool): (found: seq<Section>)
    ensures forall s :: s in found <==> s in sections && s.Holds(at, size, rawOnly)
  {
    if sections == [] then []
    else (if sections[0].Holds(at, size, rawOnly) then [sections[0]] else []) + Holding(sections[1..], at, size, rawOnly)
  }

  function SectionAt(h: Headers, at: int, size: int, rawOnly: bool): (r: Result<Section, Reason>)
    ensures r.Ok? ==> size > 0 && at >= 0 && r.value in h.sections && r.value.Holds(at, size, rawOnly)
                      && forall s | s in h.sections && s.Holds(at, size, rawOnly) :: s == r.value
  {
    if size <= 0 || at < 0 then Refused(RvaRange)
    else
      var found := Holding(h.sections, at, size, rawOnly);
      if |found| == 1 then assert forall s | s in found :: s == found[0]; Ok(found[0]) else Refused(UniqueSectionRange)
  }

  /** Python's `data[lo:hi]`, which stops at the end of `data`. */
  function Slice(data: seq<byte>, lo: nat, hi: nat): seq<byte>
    requires lo <= hi
  {
    if lo > |data| then [] else if hi > |data| then data[lo..] else data[lo..hi]
  }

  function HoldingRegions(regions: seq<Region>, at: int, size: int): (found: seq<Region>)
    ensures forall g :: g in found <==> g in regions && g.Holds(at, size)
  {
    if regions == [] then []
    else (if regions[0].Holds(at, size) then [regions[0]] else []) + HoldingRegions(regions[1..], at, size)
  }

  function At(image: Image, at: int, size: int): (r: Result<seq<byte>, Reason>)
    requires image.Valid()
    ensures r.Ok? ==> |r.value| == size && SectionAt(image.headers, at, size, true).Ok?
  {
    var section :- SectionAt(image.headers, at, size, true);
    match image.regions
    case None =>
      var pos := section.raw + at - section.rva;
      Ok(Slice(image.data, pos, pos + size))
    case Some(regions) =>
      var found := HoldingRegions(regions, at, size);
      if |found| == 1 then
        assert found[0] in found;
        Ok(found[0].data[at - found[0].base..at - found[0].base + size])
      else Refused(CallbackProofRegion)
  }

  /** A query inside an answered one is answered by the corresponding part. */
  lemma AtWithin(image: Image, at: int, size: int, innerAt: int, innerSize: int)
    requires image.Valid() && image.regions.None? && At(image, at, size).Ok?
    requires at <= innerAt && 0 < innerSize && innerAt + innerSize <= at + size
    requires SectionAt(image.headers, innerAt, innerSize, true).Ok?
    ensures At(image, innerAt, innerSize)
         == Ok(At(image, at, size).value[innerAt - at..innerAt - at + innerSize])
  {
    var outer := SectionAt(image.headers, at, size, true).value;
    assert outer.Holds(innerAt, innerSize, true);
    assert SectionAt(image.headers, innerAt, innerSize, true).value == outer;
    var pos := outer.raw + at - outer.rva;
    assert image.data[pos..pos + size][innerAt - at..innerAt - at + innerSize]
        == image.data[pos + (innerAt - at)..pos + (innerAt - at) + innerSize];
  }

  /** Fragments cut from an image: same headers, and each fragment holds the image's bytes at its address. */
  ghost predicate FragmentsOf(part: Image, whole: Image) {
    && part.Valid() && whole.Valid() && part.regions.Some? && whole.regions.None?
    && part.headers == whole.headers && part.fileSize == whole.fileSize
    && forall g | g in part.regions.value :: At(whole, g.base, |g.data|) == Ok(g.data)
  }

  /** A fragment-backed image never answers differently from the image it was cut from. */
  lemma FragmentsAgree(part: Image, whole: Image, at: int, size: int)
    requires FragmentsOf(part, whole) && At(part, at, size).Ok?
    ensures At(part, at, size) == At(whole, at, size)
  {
    hide SectionAt;
    var found := HoldingRegions(part.regions.value, at, size);
    var g := found[0];
    assert g in found;
    assert At(whole, g.base, |g.data|) == Ok(g.data);
    AtWithin(whole, g.base, |g.data|, at, size);
  }

  // ----- the runtime function ---------------------------------------------------------------------

  datatype RuntimeFunction = RuntimeFunction(begin: nat, end: nat, unwind: nat)

  /** The 12-byte .pdata entries whose range holds `start`. */
  function MatchingEntries(table: seq<byte>, start: int): (found: seq<RuntimeFunction>)
    requires |table| % 12 == 0
    ensures forall e | e in found :: e.begin <= start < e.end < 0x1_0000_0000 && e.unwind < 0x1_0000_0000
  {
    if table == [] then []
    else
      var entry := RuntimeFunction(U32(table, 0), U32(table, 4), U32(table, 8));
      (if entry.begin <= start < entry.end then [entry] else []) + MatchingEntries(table[12..], start)
  }

  datatype Body = Body(end: int, unwind: int, code: seq<byte>)

  function Function(image: Image, start: int): (r: Result<Body, Reason>)
    requires image.Valid()
    ensures r.Ok? ==> 0 < |r.value.code| <= CODE_CAP && r.value.end == start + |r.value.code|
  {
    var h := image.headers;
    :- Need(0 < h.exceptionSize <= 4 * 1024 * 1024 && h.exceptionSize % 12 == 0, BoundedPdata);
    var table :- At(image, h.exceptionRva, h.exceptionSize);
    var matches := MatchingEntries(table, start);
    :- Need(|matches| == 1 && matches[0].begin == start, ExactUniqueRuntimeFunction);
    assert matches[0] in matches;
    var size := matches[0].end - start;
    var unwind := matches[0].unwind;
    :- Need(0 < size <= CODE_CAP, CallbackSizeBound);
    :- Need(unwind % 4 == 0, UnwindAlignment);
    var header :- At(image, unwind, 4);
    var info :- At(image, unwind, Unwind.InfoSize(header[2]));
    :- Unwind.Verdict(info, size);
    var section :- SectionAt(image.headers, start, size, true);
    :- Need(HasFlag(section.flags, EXECUTE) && !HasFlag(section.flags, WRITE), CallbackExecutableNonwritable);
    var code :- At(image, start, size);
    Ok(Body(matches[0].end, unwind, code))
  }
}
