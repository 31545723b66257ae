/**
  `packet_sections.py`: the section-aware digest of a packet.  A digest is represented by the bytes it is fed.

  The header's bytes 40..48 give the directory's offset; the directory gives each section's range.  The device
  part is what no section and not the directory covers.
 */
module PacketDigest {
  import opened Common
  import Safetensors

  const HEADER := 64
  const ENTRY := 48

  datatype Range = Range(a: nat, z: nat)

  function DirectoryOffset(b: Bytes): nat { FromLittleEndian(Slice(b, 40, 48)) }

  function SectionCount(b: Bytes, d: nat): nat { FromLittleEndian(Slice(b, d + 4, d + 8)) }

  function EntryBytes(b: Bytes, d: nat, i: nat): Bytes { Slice(b, d + 8 + ENTRY * i, d + 8 + ENTRY * (i + 1)) }

  function SectionRange(b: Bytes, d: nat, i: nat): (r: Range)
    ensures r.a <= r.z
  {
    var e := EntryBytes(b, d, i);
    var off := FromLittleEndian(Slice(e, 8, 16));
    Range(off, off + FromLittleEndian(Slice(e, 16, 24)))
  }

  function Name(b: Bytes, d: nat, i: nat): Bytes { UpToZero(Slice(EntryBytes(b, d, i), 24, 48)) }

  function UpToZero(s: Bytes): Bytes {
    if s == [] || s[0] == 0 then [] else [s[0]] + UpToZero(s[1..])
  }

  /** The directory-to-end range, then the sections' ranges in directory order. */
  function Ranges(b: Bytes, d: nat, n: nat): seq<Range> {
    [Range(d, |b|)] + seq(n, i requires 0 <= i < n => SectionRange(b, d, i))
  }

  // --- what is outside every range ----------------------------------------

  predicate Covers(r: Range, p: int) { r.a <= p < r.z }

  predicate Covered(ranges: seq<Range>, p: int) {
    exists i :: 0 <= i < |ranges| && Covers(ranges[i], p)
  }

  /** What each position adds, joined over [p, q). */
  function JoinedOver(piece: int -> Bytes, p: int, q: int): Bytes
    decreases q - p
  {
    if p >= q then [] else piece(p) + JoinedOver(piece, p + 1, q)
  }

  lemma {:induction false} JoinedSplits(piece: int -> Bytes, p: int, m: int, q: int)
    requires p <= m <= q
    ensures JoinedOver(piece, p, q) == JoinedOver(piece, p, m) + JoinedOver(piece, m, q)
    decreases m - p
  {
    if p < m {
      JoinedSplits(piece, p + 1, m, q);
    }
  }

  lemma JoinedSkips(piece: int -> Bytes, lo: int, p: int, q: int, hi: int)
    requires lo <= p <= q <= hi && JoinedOver(piece, p, q) == []
    ensures JoinedOver(piece, lo, hi) == JoinedOver(piece, lo, p) + JoinedOver(piece, q, hi)
  {
    JoinedSplits(piece, lo, p, hi);
    JoinedSplits(piece, p, q, hi);
  }

  lemma {:induction false} JoinedMoved(piece: int -> Bytes, p: int, q: int, piece2: int -> Bytes, shift: int)
    requires forall x :: p <= x < q ==> piece(x) == piece2(x + shift)
    ensures JoinedOver(piece, p, q) == JoinedOver(piece2, p + shift, q + shift)
    decreases q - p
  {
    if p < q {
      JoinedMoved(piece, p + 1, q, piece2, shift);
    }
  }

  lemma {:induction false} JoinedBytes(piece: int -> Bytes, b: Bytes, p: nat, q: nat)
    requires p <= q <= |b| && forall x :: p <= x < q ==> piece(x) == [b[x]]
    ensures JoinedOver(piece, p, q) == b[p..q]
    decreases q - p
  {
    if p < q {
      JoinedBytes(piece, b, p + 1, q);
      assert b[p..q] == [b[p]] + b[p + 1..q];
    }
  }

  lemma {:induction false} JoinedNothing(piece: int -> Bytes, p: int, q: int)
    requires forall x :: p <= x < q ==> piece(x) == []
    ensures JoinedOver(piece, p, q) == []
    decreases q - p
  {
    if p < q {
      JoinedNothing(piece, p + 1, q);
    }
  }

  /** What a position adds to the bytes that no range covers. */
  function Piece(b: Bytes, ranges: seq<Range>): int -> Bytes {
    p => if 0 <= p < |b| && !Covered(ranges, p) then [b[p]] else []
  }

  /** The bytes of `b` at the positions from `p` up to `q` that no range covers, in order. */
  function Outside(b: Bytes, ranges: seq<Range>, p: nat, q: nat): Bytes {
    JoinedOver(Piece(b, ranges), p, q)
  }

  // --- the sweep ----------------------------------------------------------

  predicate Before(r: Range, s: Range) { r.a < s.a || (r.a == s.a && r.z <= s.z) }

  ghost predicate Sorted(s: seq<Range>) {
    forall i, j :: 0 <= i < j < |s| ==> s[i].a <= s[j].a
  }

  function InsertRange(x: Range, s: seq<Range>): seq<Range> {
    if s == [] then [x] else if Before(x, s[0]) then [x] + s else [s[0]] + InsertRange(x, s[1..])
  }

  lemma {:induction false} InsertRangeAdds(x: Range, s: seq<Range>)
    ensures multiset(InsertRange(x, s)) == multiset(s) + multiset{x}
    ensures forall y :: y in InsertRange(x, s) <==> y == x || y in s
  {
    if s != [] {
      assert s == [s[0]] + s[1..];
      if !Before(x, s[0]) {
        InsertRangeAdds(x, s[1..]);
      }
    }
  }

  lemma {:induction false} InsertRangeSorts(x: Range, s: seq<Range>)
    requires Sorted(s)
    ensures Sorted(InsertRange(x, s))
  {
    if s != [] && !Before(x, s[0]) {
      InsertRangeSorts(x, s[1..]);
      InsertRangeAdds(x, s[1..]);
      var rest := InsertRange(x, s[1..]);
      forall j | 0 <= j < |rest|
        ensures s[0].a <= rest[j].a
      {
        assert rest[j] in rest;
      }
    }
  }

  /** `ranges.sort()`: insertion of each range into the sorted ones before it. */
  method SortRanges(ranges: seq<Range>) returns (sorted: seq<Range>)
    ensures Sorted(sorted) && multiset(sorted) == multiset(ranges)
  {
    sorted := [];
    for i := 0 to |ranges|
      invariant Sorted(sorted) && multiset(sorted) == multiset(ranges[..i])
    {
      assert ranges[..i + 1] == ranges[..i] + [ranges[i]];
      InsertRangeAdds(ranges[i], sorted);
      InsertRangeSorts(ranges[i], sorted);
      sorted := InsertRange(ranges[i], sorted);
    }
    assert ranges[..|ranges|] == ranges;
  }

  lemma SameCoverage(s: seq<Range>, t: seq<Range>, p: int)
    requires multiset(s) == multiset(t)
    ensures Covered(s, p) <==> Covered(t, p)
  {
    forall r
      ensures r in s <==> r in t
    {
      assert r in multiset(s) <==> r in multiset(t);
    }
    if Covered(s, p) {
      var i :| 0 <= i < |s| && Covers(s[i], p);
      assert s[i] in t;
    }
    if Covered(t, p) {
      var i :| 0 <= i < |t| && Covers(t[i], p);
      assert t[i] in s;
    }
  }

  /** The device part: two header slices, then every uncovered byte from 64 on. */
  function Device(b: Bytes, ranges: seq<Range>): Bytes {
    Slice(b, 0, 40) + Slice(b, 48, HEADER) + Outside(b, ranges, HEADER, |b|)
  }

  function Min(x: nat, y: nat): nat { if x < y then x else y }

  /** Between the end of the ranges swept and the start of the next one lies nothing covered. */
  lemma GapIsFree(sorted: seq<Range>, i: nat, pos: nat, x: nat)
    requires Sorted(sorted) && i <= |sorted| && forall k :: 0 <= k < i ==> sorted[k].z <= pos
    requires pos <= x && (i < |sorted| ==> x < sorted[i].a)
    ensures !Covered(sorted, x)
  {
    forall k | 0 <= k < |sorted|
      ensures !Covers(sorted[k], x)
    {
    }
  }

  lemma GapBytes(b: Bytes, sorted: seq<Range>, i: nat, pos: nat, m: nat)
    requires Sorted(sorted) && i <= |sorted| && forall k :: 0 <= k < i ==> sorted[k].z <= pos
    requires pos <= m <= |b| && (i < |sorted| ==> m <= sorted[i].a)
    ensures Outside(b, sorted, pos, m) == b[pos..m]
  {
    forall x | pos <= x < m
      ensures Piece(b, sorted)(x) == [b[x]]
    {
      GapIsFree(sorted, i, pos, x);
    }
    JoinedBytes(Piece(b, sorted), b, pos, m);
  }

  lemma RangeBytes(b: Bytes, sorted: seq<Range>, i: nat, m: nat, q: nat)
    requires i < |sorted| && sorted[i].a <= m && q <= sorted[i].z && q <= |b|
    ensures Outside(b, sorted, m, q) == []
  {
    forall x | m <= x < q
      ensures Piece(b, sorted)(x) == []
    {
      assert Covers(sorted[i], x);
    }
    JoinedNothing(Piece(b, sorted), m, q);
  }

  /** A range ends no earlier than it starts, or at the end of the packet. */
  predicate Proper(b: Bytes, r: Range) { r.a <= r.z || |b| <= r.z }

  /** One range swept: the gap before it is fed, and nothing of it. */
  lemma SweepStep(b: Bytes, sorted: seq<Range>, i: nat, pos: nat)
    requires Sorted(sorted) && i < |sorted| && HEADER <= pos < |b| && Proper(b, sorted[i])
    requires forall k :: 0 <= k < i ==> sorted[k].z <= pos
    ensures var r := sorted[i];
            Outside(b, sorted, HEADER, Min(if pos < r.z then r.z else pos, |b|)) ==
            Outside(b, sorted, HEADER, pos) + if r.a > pos then Slice(b, pos, r.a) else []
  {
    var r := sorted[i];
    var m := Min(if pos < r.a then r.a else pos, |b|);
    var q := Min(if pos < r.z then r.z else pos, |b|);
    if pos < r.a {
      GapBytes(b, sorted, i, pos, m);
    }
    JoinedSplits(Piece(b, sorted), HEADER, pos, q);
    JoinedSplits(Piece(b, sorted), pos, m, q);
    if m < q {
      RangeBytes(b, sorted, i, m, q);
    }
  }

  lemma SortedProper(b: Bytes, sorted: seq<Range>, ranges: seq<Range>)
    requires multiset(sorted) == multiset(ranges) && forall r :: r in ranges ==> Proper(b, r)
    ensures forall i :: 0 <= i < |sorted| ==> Proper(b, sorted[i])
  {
    forall i | 0 <= i < |sorted|
      ensures Proper(b, sorted[i])
    {
      assert sorted[i] in multiset(sorted) && sorted[i] in multiset(ranges);
    }
  }

  lemma TailOutside(b: Bytes, sorted: seq<Range>, pos: nat)
    requires Sorted(sorted) && HEADER <= pos && forall k :: 0 <= k < |sorted| ==> sorted[k].z <= pos
    ensures Outside(b, sorted, HEADER, |b|) ==
            Outside(b, sorted, HEADER, Min(pos, |b|)) + if pos < |b| then Slice(b, pos, |b|) else []
  {
    if pos < |b| {
      GapBytes(b, sorted, |sorted|, pos, |b|);
      JoinedSplits(Piece(b, sorted), HEADER, pos, |b|);
    }
  }

  lemma SortedOutside(b: Bytes, sorted: seq<Range>, ranges: seq<Range>)
    requires multiset(sorted) == multiset(ranges)
    ensures Outside(b, sorted, HEADER, |b|) == Outside(b, ranges, HEADER, |b|)
  {
    forall x | HEADER <= x < |b|
      ensures Piece(b, sorted)(x) == Piece(b, ranges)(x + 0)
    {
      SameCoverage(sorted, ranges, x);
    }
    JoinedMoved(Piece(b, sorted), HEADER, |b|, Piece(b, ranges), 0);
  }

  /** After `i` ranges the sweep is at `pos` and has fed what they leave out before it. */
  ghost predicate Swept(b: Bytes, sorted: seq<Range>, i: nat, pos: nat, head: Bytes, fed: Bytes)
    requires i <= |sorted|
  {
    && HEADER <= pos
    && (forall k :: 0 <= k < i ==> sorted[k].z <= pos)
    && fed == head + Outside(b, sorted, HEADER, Min(pos, |b|))
  }

  lemma SweptNext(b: Bytes, sorted: seq<Range>, i: nat, pos: nat, head: Bytes, fed: Bytes)
    requires Sorted(sorted) && i < |sorted| && Proper(b, sorted[i]) && Swept(b, sorted, i, pos, head, fed)
    ensures var r := sorted[i];
            Swept(b, sorted, i + 1, if pos < r.z then r.z else pos, head,
                  if r.a > pos then fed + Slice(b, pos, r.a) else fed)
  {
    if pos < |b| {
      SweepStep(b, sorted, i, pos);
    }
  }

  lemma SweptAll(b: Bytes, sorted: seq<Range>, ranges: seq<Range>, pos: nat, head: Bytes, fed: Bytes)
    requires Sorted(sorted) && multiset(sorted) == multiset(ranges) && Swept(b, sorted, |sorted|, pos, head, fed)
    ensures head + Outside(b, ranges, HEADER, |b|) == if pos < |b| then fed + Slice(b, pos, |b|) else fed
  {
    TailOutside(b, sorted, pos);
    SortedOutside(b, sorted, ranges);
  }

  /** The sweep over the sorted ranges feeds exactly the device part, whatever overlaps or disorder the ranges have. */
  method FeedDevice(b: Bytes, ranges: seq<Range>) returns (fed: Bytes)
    requires forall r :: r in ranges ==> Proper(b, r)
    ensures fed == Device(b, ranges)
  {
    var sorted := SortRanges(ranges);
    SortedProper(b, sorted, ranges);
    fed := Slice(b, 0, 40) + Slice(b, 48, HEADER);
    ghost var head := fed;
    var pos: nat := HEADER;
    for i := 0 to |sorted|
      invariant Swept(b, sorted, i, pos, head, fed)
    {
      SweptNext(b, sorted, i, pos, head, fed);
      var r := sorted[i];
      if r.a > pos {
        fed := fed + Slice(b, pos, r.a);
      }
      pos := if pos < r.z then r.z else pos;
    }
    SweptAll(b, sorted, ranges, pos, head, fed);
    if pos < |b| {
      fed := fed + Slice(b, pos, |b|);
    }
  }

  // --- the whole digest ---------------------------------------------------

  /** What a section's digest is fed, and the size it is printed with. */
  datatype Section = Section(bytes: Bytes, size: nat)

  function SectionOf(b: Bytes, r: Range): Section
    requires r.a <= r.z
  {
    Section(Slice(b, r.a, r.z), r.z - r.a)
  }

  function SectionAt(b: Bytes, d: nat, i: nat): Section {
    SectionOf(b, SectionRange(b, d, i))
  }

  /** Entries in order; a repeated name keeps the last. */
  function LastWins(names: nat -> Bytes, sections: nat -> Section, n: nat): map<Bytes, Section> {
    if n == 0 then map[] else LastWins(names, sections, n - 1)[names(n - 1) := sections(n - 1)]
  }

  lemma {:induction false} LastWinsAt(names: nat -> Bytes, sections: nat -> Section, n: nat, j: nat)
    requires j < n && forall m: nat :: j < m < n ==> names(m) != names(j)
    ensures names(j) in LastWins(names, sections, n) && LastWins(names, sections, n)[names(j)] == sections(j)
  {
    if j < n - 1 {
      LastWinsAt(names, sections, n - 1, j);
    }
  }

  lemma {:induction false} LastWinsKeys(names: nat -> Bytes, sections: nat -> Section,
                                        names2: nat -> Bytes, sections2: nat -> Section, n: nat)
    requires forall j: nat :: j < n ==> names(j) == names2(j)
    ensures LastWins(names, sections, n).Keys == LastWins(names2, sections2, n).Keys
  {
    if n > 0 {
      LastWinsKeys(names, sections, names2, sections2, n - 1);
    }
  }

  function Names(b: Bytes, d: nat): nat -> Bytes { (i: nat) => Name(b, d, i) }

  function SectionsFrom(b: Bytes, d: nat): nat -> Section { (i: nat) => SectionAt(b, d, i) }

  /** The named sections of a directory of `n` entries. */
  function Sections(b: Bytes, d: nat, n: nat): map<Bytes, Section> {
    LastWins(Names(b, d), SectionsFrom(b, d), n)
  }

  datatype Digest = Whole(bytes: Bytes) | Parts(device: Bytes, sections: map<Bytes, Section>)

  function DigestOf(b: Bytes): Digest {
    var d := DirectoryOffset(b);
    if d == 0 then Whole(b)
    else Parts(Device(b, Ranges(b, d, SectionCount(b, d))), Sections(b, d, SectionCount(b, d)))
  }

  lemma RangesProper(b: Bytes, d: nat, n: nat)
    ensures forall r :: r in Ranges(b, d, n) ==> Proper(b, r)
  {
  }

  lemma RangesGrow(b: Bytes, d: nat, i: nat)
    ensures Ranges(b, d, i + 1) == Ranges(b, d, i) + [SectionRange(b, d, i)]
  {
  }

  lemma SectionsGrow(names: nat -> Bytes, sections: nat -> Section, i: nat)
    ensures LastWins(names, sections, i + 1) == LastWins(names, sections, i)[names(i) := sections(i)]
  {
  }

  /** Every section's name decodes as text. */
  ghost predicate Decodable(b: Bytes, d: nat, n: nat, decodes: Bytes -> bool) {
    forall i: nat :: i < n ==> decodes(Name(b, d, i))
  }

  ghost predicate ReadUpTo(b: Bytes, d: nat, n: nat, sections: map<Bytes, Section>, ranges: seq<Range>) {
    sections == Sections(b, d, n) && ranges == Ranges(b, d, n)
  }

  lemma ReadNext(b: Bytes, d: nat, i: nat, sections: map<Bytes, Section>, ranges: seq<Range>)
    requires ReadUpTo(b, d, i, sections, ranges)
    ensures ReadUpTo(b, d, i + 1, sections[Name(b, d, i) := SectionAt(b, d, i)], ranges + [SectionRange(b, d, i)])
  {
    RangesGrow(b, d, i);
    SectionsGrow(Names(b, d), SectionsFrom(b, d), i);
  }

  lemma DecodableNext(b: Bytes, d: nat, n: nat, decodes: Bytes -> bool)
    requires Decodable(b, d, n, decodes) && decodes(Name(b, d, n))
    ensures Decodable(b, d, n + 1, decodes)
  {
  }

  /** The entries in order; a name that does not decode ends the reading. */
  method ReadDirectory(b: Bytes, d: nat, n: nat, decodes: Bytes -> bool)
    returns (directory: Option<(map<Bytes, Section>, seq<Range>)>)
    ensures directory.Some? <==> Decodable(b, d, n, decodes)
    ensures directory.Some? ==> ReadUpTo(b, d, n, directory.value.0, directory.value.1)
  {
    var sections: map<Bytes, Section> := map[];
    var ranges := [Range(d, |b|)];
    for i := 0 to n
      invariant Decodable(b, d, i, decodes) && ReadUpTo(b, d, i, sections, ranges)
    {
      if !decodes(Name(b, d, i)) {
        return None;
      }
      ReadNext(b, d, i, sections, ranges);
      DecodableNext(b, d, i, decodes);
      var r := SectionRange(b, d, i);
      sections := sections[Name(b, d, i) := SectionOf(b, r)];
      ranges := ranges + [r];
    }
    directory := Some((sections, ranges));
  }

  /** The digest; fails exactly on a directory with a name that does not decode. */
  method Parse(b: Bytes, decodes: Bytes -> bool) returns (digest: Option<Digest>)
    ensures var d := DirectoryOffset(b);
            digest.Some? <==> d == 0 || Decodable(b, d, SectionCount(b, d), decodes)
    ensures digest.Some? ==> digest.value == DigestOf(b)
  {
    var d := DirectoryOffset(b);
    if d == 0 {
      return Some(Whole(b));
    }
    var n := SectionCount(b, d);
    var directory := ReadDirectory(b, d, n, decodes);
    if directory.None? {
      return None;
    }
    RangesProper(b, d, n);
    var device := FeedDevice(b, directory.value.1);
    digest := Some(Parts(device, directory.value.0));
  }

  // --- a directory written field by field ----------------------------------

  /** A directory entry as it is laid out: two words that are not read, where the section is, and its name. */
  datatype Record = Record(kind: Bytes, pad: Bytes, offset: nat, size: nat, name: Bytes)

  function Zeros(n: nat): Bytes { seq(n, _ => 0) }

  /** The fields have the widths the format gives them. */
  ghost predicate Fits(e: Record) {
    && |e.kind| == 4 && |e.pad| == 4 && e.offset < 0x1_0000_0000_0000_0000 && e.size < 0x1_0000_0000_0000_0000
    && |e.name| <= 24 && 0 !in e.name
  }

  /** Kind, padding, offset, size and the name filled up with zeros. */
  function Encoded(e: Record): Bytes
    requires |e.name| <= 24
  {
    e.kind + e.pad + Safetensors.LittleEndian(e.offset, 8) + Safetensors.LittleEndian(e.size, 8)
    + e.name + Zeros(24 - |e.name|)
  }

  /** The packet's header names `d`, and there a directory of these entries is written. */
  ghost predicate DirectoryAt(b: Bytes, d: nat, magic: Bytes, entries: seq<Record>) {
    && HEADER <= d < 0x1_0000_0000_0000_0000 && |entries| < 0x1_0000_0000 && d + 8 + 48 * |entries| <= |b|
    && b[40..48] == Safetensors.LittleEndian(d, 8)
    && |magic| == 4 && b[d..d + 8] == magic + Safetensors.LittleEndian(|entries|, 4)
    && forall i :: 0 <= i < |entries| ==> EntryAt(b, d + 8 + 48 * i, entries[i])
  }

  ghost predicate EntryAt(b: Bytes, at: nat, e: Record) {
    Fits(e) && at + 48 <= |b| && b[at..at + 48] == Encoded(e)
  }

  lemma WidthsHold()
    ensures Safetensors.Capacity(4) == 0x1_0000_0000 && Safetensors.Capacity(8) == 0x1_0000_0000_0000_0000
  {
    assert Safetensors.Capacity(4) == 0x1_0000_0000;
  }

  lemma {:induction false} NameEnds(name: Bytes, n: nat)
    requires 0 !in name
    ensures UpToZero(name + Zeros(n)) == name
  {
    var s := name + Zeros(n);
    if name != [] {
      assert s[1..] == name[1..] + Zeros(n);
      NameEnds(name[1..], n);
    }
  }

  lemma FieldsRead(e: Record)
    requires Fits(e)
    ensures |Encoded(e)| == 48
    ensures FromLittleEndian(Encoded(e)[8..16]) == e.offset && FromLittleEndian(Encoded(e)[16..24]) == e.size
    ensures UpToZero(Encoded(e)[24..48]) == e.name
  {
    var b := Encoded(e);
    WidthsHold();
    assert b[8..16] == Safetensors.LittleEndian(e.offset, 8);
    assert b[16..24] == Safetensors.LittleEndian(e.size, 8);
    assert b[24..48] == e.name + Zeros(24 - |e.name|);
    Safetensors.LittleEndianRoundTrip(e.offset, 8);
    Safetensors.LittleEndianRoundTrip(e.size, 8);
    NameEnds(e.name, 24 - |e.name|);
  }

  lemma EntryRead(b: Bytes, d: nat, i: nat, e: Record)
    requires EntryAt(b, d + 8 + 48 * i, e)
    ensures SectionRange(b, d, i) == Range(e.offset, e.offset + e.size) && Name(b, d, i) == e.name
  {
    FieldsRead(e);
    assert EntryBytes(b, d, i) == Encoded(e);
  }

  lemma HeadRead(b: Bytes, d: nat, magic: Bytes, n: nat)
    requires HEADER <= d < 0x1_0000_0000_0000_0000 && n < 0x1_0000_0000 && d + 8 <= |b| && |magic| == 4
    requires b[40..48] == Safetensors.LittleEndian(d, 8) && b[d..d + 8] == magic + Safetensors.LittleEndian(n, 4)
    ensures DirectoryOffset(b) == d && SectionCount(b, d) == n
  {
    WidthsHold();
    Safetensors.LittleEndianRoundTrip(d, 8);
    Safetensors.LittleEndianRoundTrip(n, 4);
    assert b[d + 4..d + 8] == b[d..d + 8][4..8] == Safetensors.LittleEndian(n, 4);
  }

  /** A directory written field by field is read back: where it is, how many entries it has, and of each the range
      and the name. */
  lemma DirectoryReadsBack(b: Bytes, d: nat, magic: Bytes, entries: seq<Record>)
    requires DirectoryAt(b, d, magic, entries)
    ensures DirectoryOffset(b) == d && SectionCount(b, d) == |entries|
    ensures forall i :: 0 <= i < |entries| ==>
              && SectionRange(b, d, i) == Range(entries[i].offset, entries[i].offset + entries[i].size)
              && Name(b, d, i) == entries[i].name
  {
    HeadRead(b, d, magic, |entries|);
    forall i | 0 <= i < |entries|
      ensures SectionRange(b, d, i) == Range(entries[i].offset, entries[i].offset + entries[i].size)
      ensures Name(b, d, i) == entries[i].name
    {
      EntryRead(b, d, i, entries[i]);
    }
  }

  /** No entry from `j` on has this name. */
  ghost predicate Unnamed(entries: seq<Record>, j: nat, name: Bytes) {
    forall m :: j <= m < |entries| ==> entries[m].name != name
  }

  /** The section is these bytes of the packet. */
  ghost predicate Holds(b: Bytes, e: Record, s: Section) {
    s.size == e.size && s.bytes == if e.offset + e.size <= |b| then b[e.offset..e.offset + e.size]
                                   else if e.offset <= |b| then b[e.offset..] else []
  }

  /** The digest of such a packet names exactly the entries' names. */
  lemma DigestNames(b: Bytes, d: nat, magic: Bytes, entries: seq<Record>)
    requires DirectoryAt(b, d, magic, entries)
    ensures DigestOf(b).Parts?
    ensures forall name :: name in DigestOf(b).sections <==> exists i :: 0 <= i < |entries| && entries[i].name == name
  {
    DirectoryReadsBack(b, d, magic, entries);
    var names := Names(b, d);
    LastWinsNames(names, SectionsFrom(b, d), |entries|);
    assert forall i: nat :: i < |entries| ==> names(i) == entries[i].name;
    forall name
      ensures name in DigestOf(b).sections <==> exists i :: 0 <= i < |entries| && entries[i].name == name
    {
      if i: nat :| i < |entries| && entries[i].name == name {
        assert names(i) == name;
      }
    }
  }

  /** Under each name it holds the bytes of the last entry of that name. */
  lemma DigestSection(b: Bytes, d: nat, magic: Bytes, entries: seq<Record>, i: nat)
    requires DirectoryAt(b, d, magic, entries) && i < |entries| && Unnamed(entries, i + 1, entries[i].name)
    ensures DigestOf(b).Parts? && entries[i].name in DigestOf(b).sections
    ensures Holds(b, entries[i], DigestOf(b).sections[entries[i].name])
  {
    DirectoryReadsBack(b, d, magic, entries);
    var names, sections := Names(b, d), SectionsFrom(b, d);
    forall m: nat | i < m < |entries|
      ensures names(m) != names(i)
    {
      assert names(m) == entries[m].name && names(i) == entries[i].name;
    }
    LastWinsAt(names, sections, |entries|, i);
    assert sections(i) == SectionAt(b, d, i);
    SliceOf(b, entries[i]);
  }

  lemma SliceOf(b: Bytes, e: Record)
    ensures Holds(b, e, SectionOf(b, Range(e.offset, e.offset + e.size)))
  {
  }

  /** Its device part is the header without the directory's place, and what no entry's range covers up to the
      directory. */
  lemma DigestDevice(b: Bytes, d: nat, magic: Bytes, entries: seq<Record>)
    requires DirectoryAt(b, d, magic, entries)
    ensures DigestOf(b).Parts?
    ensures DigestOf(b).device == b[..40] + b[48..64] + Outside(b, Taken(d, |b|, entries), 64, |b|)
  {
    DirectoryReadsBack(b, d, magic, entries);
    assert Ranges(b, d, |entries|) == Taken(d, |b|, entries);
  }

  /** From the directory to the end, and every section. */
  function Taken(d: nat, end: nat, entries: seq<Record>): seq<Range> {
    [Range(d, end)]
    + seq(|entries|, i requires 0 <= i < |entries| => Range(entries[i].offset, entries[i].offset + entries[i].size))
  }

  lemma {:induction false} LastWinsNames(names: nat -> Bytes, sections: nat -> Section, n: nat)
    ensures forall name :: name in LastWins(names, sections, n) <==> exists i: nat :: i < n && names(i) == name
  {
    if n > 0 {
      LastWinsNames(names, sections, n - 1);
    }
  }

  // --- overwriting one section in place ------------------------------------

  /** `b2` differs from `b` at most inside `r`. */
  ghost predicate SameOutside(b: Bytes, b2: Bytes, r: Range) {
    |b| == |b2| && forall x :: 0 <= x < |b| && !Covers(r, x) ==> b[x] == b2[x]
  }

  /** `r` has no byte of [lo, hi). */
  predicate Avoids(r: Range, lo: nat, hi: nat) { r.z <= lo || hi <= r.a || r.z <= r.a }

  lemma SliceSame(b: Bytes, b2: Bytes, r: Range, lo: nat, hi: nat)
    requires SameOutside(b, b2, r) && Avoids(r, lo, hi)
    ensures Slice(b, lo, hi) == Slice(b2, lo, hi)
  {
  }

  /** The section's payload lies outside the header and outside the directory's table. */
  predicate PayloadOnly(b: Bytes, r: Range) {
    var d := DirectoryOffset(b);
    Avoids(r, 40, 48) && Avoids(r, d + 4, d + 8 + ENTRY * SectionCount(b, d))
  }

  lemma EntrySame(b: Bytes, b2: Bytes, r: Range, d: nat, n: nat, i: nat)
    requires SameOutside(b, b2, r) && Avoids(r, d + 4, d + 8 + ENTRY * n) && i < n
    ensures EntryBytes(b, d, i) == EntryBytes(b2, d, i)
  {
    SliceSame(b, b2, r, d + 8 + ENTRY * i, d + 8 + ENTRY * (i + 1));
  }

  lemma SectionSame(b: Bytes, b2: Bytes, r: Range, d: nat, n: nat, i: nat)
    requires SameOutside(b, b2, r) && Avoids(r, d + 4, d + 8 + ENTRY * n) && i < n
    ensures SectionRange(b, d, i) == SectionRange(b2, d, i) && Name(b, d, i) == Name(b2, d, i)
  {
    EntrySame(b, b2, r, d, n, i);
  }

  lemma RangesSame(b: Bytes, b2: Bytes, r: Range, d: nat, n: nat)
    requires SameOutside(b, b2, r) && Avoids(r, d + 4, d + 8 + ENTRY * n)
    ensures Ranges(b, d, n) == Ranges(b2, d, n)
  {
    forall i | 0 <= i < n
      ensures SectionRange(b, d, i) == SectionRange(b2, d, i)
    {
      SectionSame(b, b2, r, d, n, i);
    }
  }

  /** The directory reads the same after the overwrite. */
  lemma DirectorySame(b: Bytes, b2: Bytes, r: Range)
    requires SameOutside(b, b2, r) && PayloadOnly(b, r)
    ensures var d := DirectoryOffset(b);
            DirectoryOffset(b2) == d && SectionCount(b2, d) == SectionCount(b, d) &&
            Ranges(b2, d, SectionCount(b, d)) == Ranges(b, d, SectionCount(b, d))
  {
    var d := DirectoryOffset(b);
    SliceSame(b, b2, r, 40, 48);
    SliceSame(b, b2, r, d + 4, d + 8);
    RangesSame(b, b2, r, d, SectionCount(b, d));
  }

  /** Bytes changed only where a range covers them are not outside. */
  lemma CoveredChange(b: Bytes, b2: Bytes, r: Range, ranges: seq<Range>)
    requires SameOutside(b, b2, r) && r in ranges
    ensures Outside(b, ranges, HEADER, |b|) == Outside(b2, ranges, HEADER, |b2|)
  {
    var i :| 0 <= i < |ranges| && ranges[i] == r;
    forall x | HEADER <= x < |b|
      ensures Piece(b, ranges)(x) == Piece(b2, ranges)(x + 0)
    {
      if Covers(r, x) {
        assert Covers(ranges[i], x);
      }
    }
    JoinedMoved(Piece(b, ranges), HEADER, |b|, Piece(b2, ranges), 0);
  }

  /** Overwriting section `i` in place: the device part changes exactly when its header bytes do. */
  lemma DeviceUnchangedIff(b: Bytes, b2: Bytes, i: nat)
    requires DirectoryOffset(b) != 0 && i < SectionCount(b, DirectoryOffset(b))
    requires var r := SectionRange(b, DirectoryOffset(b), i); SameOutside(b, b2, r) && PayloadOnly(b, r)
    ensures DigestOf(b2).Parts? && DigestOf(b).Parts?
    ensures DigestOf(b2).device == DigestOf(b).device <==>
            Slice(b, 0, 40) == Slice(b2, 0, 40) && Slice(b, 48, HEADER) == Slice(b2, 48, HEADER)
  {
    var d := DirectoryOffset(b);
    var n := SectionCount(b, d);
    var r := SectionRange(b, d, i);
    DirectorySame(b, b2, r);
    var ranges := Ranges(b, d, n);
    assert ranges[i + 1] == r;
    DeviceKeptIff(b, b2, r, ranges);
  }

  lemma DeviceKeptIff(b: Bytes, b2: Bytes, r: Range, ranges: seq<Range>)
    requires SameOutside(b, b2, r) && r in ranges
    ensures Device(b2, ranges) == Device(b, ranges) <==>
            Slice(b, 0, 40) == Slice(b2, 0, 40) && Slice(b, 48, HEADER) == Slice(b2, 48, HEADER)
  {
    CoveredChange(b, b2, r, ranges);
    DeviceHeads(Slice(b, 0, 40), Slice(b, 48, HEADER), Slice(b2, 0, 40), Slice(b2, 48, HEADER),
                Outside(b, ranges, HEADER, |b|));
  }

  lemma DeviceHeads(a: Bytes, c: Bytes, a2: Bytes, c2: Bytes, rest: Bytes)
    requires |a| == |a2| && |c| == |c2|
    ensures a + c + rest == a2 + c2 + rest <==> a == a2 && c == c2
  {
    if a + c + rest == a2 + c2 + rest {
      assert a == (a + c + rest)[..|a|] && a2 == (a2 + c2 + rest)[..|a|];
      assert c == (a + c + rest)[|a|..|a| + |c|] && c2 == (a2 + c2 + rest)[|a|..|a| + |c|];
    }
  }

  /** No later entry of the directory has entry `j`'s name. */
  ghost predicate IsLast(b: Bytes, d: nat, n: nat, j: nat) {
    j < n && forall m: nat :: j < m < n ==> Name(b, d, m) != Name(b, d, j)
  }

  /** Two directories with the same names, and the same section under the names that `keep` marks. */
  lemma SectionsKept(b: Bytes, d: nat, b2: Bytes, d2: nat, n: nat, keep: nat -> bool)
    requires forall j: nat :: j < n ==> Name(b, d, j) == Name(b2, d2, j)
    requires forall j: nat :: j < n && keep(j) ==> SectionAt(b, d, j) == SectionAt(b2, d2, j)
    ensures Sections(b2, d2, n).Keys == Sections(b, d, n).Keys
    ensures forall j: nat :: IsLast(b, d, n, j) && keep(j) ==>
              Name(b, d, j) in Sections(b, d, n).Keys &&
              Sections(b2, d2, n)[Name(b, d, j)] == Sections(b, d, n)[Name(b, d, j)]
  {
    LastWinsKeys(Names(b, d), SectionsFrom(b, d), Names(b2, d2), SectionsFrom(b2, d2), n);
    forall j: nat | IsLast(b, d, n, j) && keep(j)
      ensures Name(b, d, j) in Sections(b, d, n).Keys
      ensures Sections(b2, d2, n)[Name(b, d, j)] == Sections(b, d, n)[Name(b, d, j)]
    {
      LastWinsAt(Names(b, d), SectionsFrom(b, d), n, j);
      LastWinsAt(Names(b2, d2), SectionsFrom(b2, d2), n, j);
    }
  }

  /** The digests name the same sections, and agree on each name whose last entry `keep` marks. */
  ghost predicate AgreeOn(b: Bytes, b2: Bytes, keep: nat -> bool) {
    var d := DirectoryOffset(b);
    && DigestOf(b).Parts? && DigestOf(b2).Parts?
    && DigestOf(b2).sections.Keys == DigestOf(b).sections.Keys
    && forall j: nat :: IsLast(b, d, SectionCount(b, d), j) && keep(j) ==>
         Name(b, d, j) in DigestOf(b).sections.Keys &&
         DigestOf(b2).sections[Name(b, d, j)] == DigestOf(b).sections[Name(b, d, j)]
  }

  /** Marks the entries of the directory at `d` whose range has no byte of `r`. */
  function ClearOf(b: Bytes, d: nat, r: Range): nat -> bool {
    (j: nat) => Avoids(r, SectionRange(b, d, j).a, SectionRange(b, d, j).z)
  }

  lemma EntriesKept(b: Bytes, b2: Bytes, d: nat, n: nat, r: Range, j: nat)
    requires SameOutside(b, b2, r) && Avoids(r, d + 4, d + 8 + ENTRY * n) && j < n
    ensures Name(b, d, j) == Name(b2, d, j)
    ensures ClearOf(b, d, r)(j) ==> SectionAt(b, d, j) == SectionAt(b2, d, j)
  {
    SectionSame(b, b2, r, d, n, j);
    var s := SectionRange(b, d, j);
    if Avoids(r, s.a, s.z) {
      SliceSame(b, b2, r, s.a, s.z);
    }
  }

  /** Overwriting a section's payload in place leaves every section disjoint from it, by name, as it was;
      past the header the device part too. */
  lemma OverwriteIsLocal(b: Bytes, b2: Bytes, d: nat, i: nat, r: Range)
    requires d == DirectoryOffset(b) != 0 && i < SectionCount(b, d) && r == SectionRange(b, d, i)
    requires SameOutside(b, b2, r) && PayloadOnly(b, r)
    ensures AgreeOn(b, b2, ClearOf(b, d, r))
    ensures Avoids(r, 0, HEADER) ==> DigestOf(b2).device == DigestOf(b).device
  {
    var n := SectionCount(b, d);
    DirectorySame(b, b2, r);
    DeviceUnchangedIff(b, b2, i);
    if Avoids(r, 0, HEADER) {
      SliceSame(b, b2, r, 0, 40);
      SliceSame(b, b2, r, 48, HEADER);
    }
    forall j: nat | j < n
      ensures Name(b, d, j) == Name(b2, d, j)
      ensures ClearOf(b, d, r)(j) ==> SectionAt(b, d, j) == SectionAt(b2, d, j)
    {
      EntriesKept(b, b2, d, n, r, j);
    }
    SectionsKept(b, d, b2, d, n, ClearOf(b, d, r));
  }

  // --- replacing one section by another of any size -------------------------

  /** Packets that differ in one section: up to `p` (but for the directory offset) they are equal, then one has
      `u` bytes where the other has `v`, and from there to the directory they are equal again. */
  ghost predicate DifferInOne(b: Bytes, d: nat, b2: Bytes, d2: nat, p: nat, u: nat, v: nat) {
    && HEADER <= p && p + u <= d <= |b| && d2 + u == d + v && |b2| + u == |b| + v
    && (forall x: nat :: x < p && !(40 <= x < 48) ==> b[x] == b2[x])
    && (forall x: nat :: p + u <= x < d ==> b[x] == b2[x + v - u])
  }

  /** An entry other than the replaced one: it lies before the replaced bytes, clear of the directory offset, or
      after them and before the directory, and its offset has moved along. */
  ghost predicate MovedEntry(r: Range, r2: Range, d: nat, p: nat, u: nat, v: nat) {
    && r.a <= r.z
    && ((r.z <= p && Avoids(Range(40, 48), r.a, r.z) && r2 == r) ||
        (p + u <= r.a && r.z <= d && r2.a + u == r.a + v && r2.z + u == r.z + v))
  }

  /** The second packet's directory is the first one's with the section resized and the others moved along. */
  ghost predicate Resized(b: Bytes, d: nat, b2: Bytes, d2: nat, n: nat, i: nat, p: nat, u: nat, v: nat) {
    && i < n && DifferInOne(b, d, b2, d2, p, u, v)
    && SectionRange(b, d, i) == Range(p, p + u) && SectionRange(b2, d2, i) == Range(p, p + v)
    && (forall j: nat :: j < n ==> Name(b, d, j) == Name(b2, d2, j))
    && (forall j: nat :: j < n && j != i ==> MovedEntry(SectionRange(b, d, j), SectionRange(b2, d2, j), d, p, u, v))
  }

  /** A range lies before the replaced bytes and stays, or after them and moves along. */
  ghost predicate Shifted(r: Range, r2: Range, p: nat, u: nat, v: nat) {
    (r.z <= p && r2 == r) || (p + u <= r.a && r2.a + u == r.a + v && r2.z + u == r.z + v)
  }

  ghost predicate AllShifted(s: seq<Range>, t: seq<Range>, i: nat, p: nat, u: nat, v: nat) {
    && i < |s| == |t| && s[i] == Range(p, p + u) && t[i] == Range(p, p + v)
    && forall k :: 0 <= k < |s| && k != i ==> Shifted(s[k], t[k], p, u, v)
  }

  lemma EntryShifted(b: Bytes, d: nat, b2: Bytes, d2: nat, n: nat, i: nat, p: nat, u: nat, v: nat, j: nat)
    requires Resized(b, d, b2, d2, n, i, p, u, v) && j < n && j != i
    ensures Shifted(SectionRange(b, d, j), SectionRange(b2, d2, j), p, u, v)
  {
    assert MovedEntry(SectionRange(b, d, j), SectionRange(b2, d2, j), d, p, u, v);
  }

  function Entries(b: Bytes, d: nat): nat -> Range { (j: nat) => SectionRange(b, d, j) }

  /** Every entry but the replaced one has moved along, and so has that one's counterpart. */
  ghost predicate EntriesShifted(e: nat -> Range, e2: nat -> Range, n: nat, i: nat, p: nat, u: nat, v: nat) {
    && i < n && e(i) == Range(p, p + u) && e2(i) == Range(p, p + v)
    && forall j: nat :: j < n && j != i ==> Shifted(e(j), e2(j), p, u, v)
  }

  lemma ResizedShifted(b: Bytes, d: nat, b2: Bytes, d2: nat, n: nat, i: nat, p: nat, u: nat, v: nat)
    requires Resized(b, d, b2, d2, n, i, p, u, v)
    ensures EntriesShifted(Entries(b, d), Entries(b2, d2), n, i, p, u, v)
  {
    forall j: nat | j < n && j != i
      ensures Shifted(Entries(b, d)(j), Entries(b2, d2)(j), p, u, v)
    {
      EntryShifted(b, d, b2, d2, n, i, p, u, v, j);
    }
  }

  /** `s` lists a range and then the first `n` entries. */
  ghost predicate Lists(s: seq<Range>, first: Range, e: nat -> Range, n: nat) {
    |s| == n + 1 && s[0] == first && forall j: nat :: j < n ==> s[j + 1] == e(j)
  }

  lemma RangesLists(b: Bytes, d: nat, n: nat)
    ensures Lists(Ranges(b, d, n), Range(d, |b|), Entries(b, d), n)
  {
  }

  lemma ListShifted(s: seq<Range>, first: Range, e: nat -> Range, t: seq<Range>, first2: Range, e2: nat -> Range,
                    n: nat, i: nat, p: nat, u: nat, v: nat)
    requires Lists(s, first, e, n) && Lists(t, first2, e2, n)
    requires Shifted(first, first2, p, u, v) && EntriesShifted(e, e2, n, i, p, u, v)
    ensures AllShifted(s, t, i + 1, p, u, v)
  {
    assert s[i + 1] == e(i) && t[i + 1] == e2(i);
    forall k | 0 <= k < |s| && k != i + 1
      ensures Shifted(s[k], t[k], p, u, v)
    {
      if k > 0 {
        assert s[k] == e(k - 1) && t[k] == e2(k - 1);
      }
    }
  }

  /** Each range of `s` covers `x` exactly when its counterpart in `t` covers `y`. */
  lemma CoverageAgrees(s: seq<Range>, x: int, t: seq<Range>, y: int)
    requires |s| == |t| && forall k :: 0 <= k < |s| ==> (Covers(s[k], x) <==> Covers(t[k], y))
    ensures Covered(s, x) <==> Covered(t, y)
  {
    if Covered(s, x) {
      var k :| 0 <= k < |s| && Covers(s[k], x);
      assert Covers(t[k], y);
    }
    if Covered(t, y) {
      var k :| 0 <= k < |t| && Covers(t[k], y);
      assert Covers(s[k], x);
    }
  }

  lemma ShiftedCoverage(s: seq<Range>, t: seq<Range>, i: nat, p: nat, u: nat, v: nat, x: int, y: int)
    requires AllShifted(s, t, i, p, u, v) && ((x < p && y == x) || (p + u <= x && y == x + v - u))
    ensures Covered(s, x) <==> Covered(t, y)
  {
    forall k | 0 <= k < |s|
      ensures Covers(s[k], x) <==> Covers(t[k], y)
    {
      assert k == i || Shifted(s[k], t[k], p, u, v);
    }
    CoverageAgrees(s, x, t, y);
  }

  lemma OutsideReplaced(b: Bytes, ranges: seq<Range>, i: nat, p: nat, q: nat)
    requires i < |ranges| && ranges[i] == Range(p, q) && HEADER <= p <= q <= |b|
    ensures Outside(b, ranges, HEADER, |b|) == Outside(b, ranges, HEADER, p) + Outside(b, ranges, q, |b|)
  {
    RangeBytes(b, ranges, i, p, q);
    JoinedSkips(Piece(b, ranges), HEADER, p, q, |b|);
  }

  lemma OutsideBefore(b: Bytes, d: nat, s: seq<Range>, b2: Bytes, d2: nat, t: seq<Range>,
                      i: nat, p: nat, u: nat, v: nat)
    requires DifferInOne(b, d, b2, d2, p, u, v) && AllShifted(s, t, i, p, u, v)
    ensures Outside(b, s, HEADER, p) == Outside(b2, t, HEADER, p)
  {
    forall x | HEADER <= x < p
      ensures Piece(b, s)(x) == Piece(b2, t)(x + 0)
    {
      ShiftedCoverage(s, t, i, p, u, v, x, x);
    }
    JoinedMoved(Piece(b, s), HEADER, p, Piece(b2, t), 0);
  }

  lemma AfterSame(b: Bytes, d: nat, s: seq<Range>, b2: Bytes, d2: nat, t: seq<Range>, i: nat, p: nat, u: nat, v: nat,
                  shift: int, x: nat)
    requires DifferInOne(b, d, b2, d2, p, u, v) && AllShifted(s, t, i, p, u, v) && s[0] == Range(d, |b|)
    requires p + u <= x < |b| && shift == v - u
    ensures Piece(b, s)(x) == Piece(b2, t)(x + shift)
  {
    ShiftedCoverage(s, t, i, p, u, v, x, x + shift);
    if d <= x {
      assert Covers(s[0], x);
    }
  }

  lemma OutsideAfter(b: Bytes, d: nat, s: seq<Range>, b2: Bytes, d2: nat, t: seq<Range>, i: nat, p: nat, u: nat, v: nat)
    requires DifferInOne(b, d, b2, d2, p, u, v) && AllShifted(s, t, i, p, u, v) && s[0] == Range(d, |b|)
    ensures Outside(b, s, p + u, |b|) == Outside(b2, t, p + v, |b2|)
  {
    var shift := v - u;
    forall x: nat | p + u <= x < |b|
      ensures Piece(b, s)(x) == Piece(b2, t)(x + shift)
    {
      AfterSame(b, d, s, b2, d2, t, i, p, u, v, shift, x);
    }
    JoinedMoved(Piece(b, s), p + u, |b|, Piece(b2, t), shift);
  }

  lemma SliceMoved(b: Bytes, a: nat, z: nat, b2: Bytes, a2: nat, z2: nat, shift: int)
    requires z <= |b| && z2 <= |b2| && a2 == a + shift && z2 == z + shift
    requires forall x: nat :: a <= x < z ==> b[x] == b2[x + shift]
    ensures Slice(b, a, z) == Slice(b2, a2, z2)
  {
  }

  lemma SectionMoved(b: Bytes, d: nat, b2: Bytes, d2: nat, p: nat, u: nat, v: nat, r: Range, r2: Range)
    requires DifferInOne(b, d, b2, d2, p, u, v) && MovedEntry(r, r2, d, p, u, v) && r2.a <= r2.z
    ensures SectionOf(b, r) == SectionOf(b2, r2)
  {
    SliceMoved(b, r.a, r.z, b2, r2.a, r2.z, r2.a - r.a);
  }

  lemma DeviceMoved(b: Bytes, d: nat, s: seq<Range>, b2: Bytes, d2: nat, t: seq<Range>, i: nat, p: nat, u: nat, v: nat)
    requires DifferInOne(b, d, b2, d2, p, u, v) && AllShifted(s, t, i, p, u, v) && s[0] == Range(d, |b|)
    ensures Device(b, s) == Device(b2, t)
  {
    OutsideBefore(b, d, s, b2, d2, t, i, p, u, v);
    OutsideAfter(b, d, s, b2, d2, t, i, p, u, v);
    OutsideReplaced(b, s, i, p, p + u);
    OutsideReplaced(b2, t, i, p, p + v);
    HeadKept(b, d, b2, d2, p, u, v);
  }

  lemma HeadKept(b: Bytes, d: nat, b2: Bytes, d2: nat, p: nat, u: nat, v: nat)
    requires DifferInOne(b, d, b2, d2, p, u, v)
    ensures Slice(b, 0, 40) == Slice(b2, 0, 40) && Slice(b, 48, HEADER) == Slice(b2, 48, HEADER)
  {
    SliceMoved(b, 0, 40, b2, 0, 40, 0);
    SliceMoved(b, 48, HEADER, b2, 48, HEADER, 0);
  }

  function OtherThan(i: nat): nat -> bool { (j: nat) => j != i }

  lemma SectionsMoved(b: Bytes, d: nat, b2: Bytes, d2: nat, n: nat, i: nat, p: nat, u: nat, v: nat, j: nat)
    requires Resized(b, d, b2, d2, n, i, p, u, v) && j < n && j != i
    ensures SectionAt(b, d, j) == SectionAt(b2, d2, j)
  {
    SectionMoved(b, d, b2, d2, p, u, v, SectionRange(b, d, j), SectionRange(b2, d2, j));
  }

  /** Two packets that differ only in one section, of whatever size, have the same device part and the same
      section under every other name. */
  lemma ReplacementIsLocal(b: Bytes, d: nat, b2: Bytes, d2: nat, n: nat, i: nat, p: nat, u: nat, v: nat)
    requires d == DirectoryOffset(b) != 0 && d2 == DirectoryOffset(b2) != 0
    requires n == SectionCount(b, d) == SectionCount(b2, d2) && Resized(b, d, b2, d2, n, i, p, u, v)
    ensures AgreeOn(b, b2, OtherThan(i)) && DigestOf(b2).device == DigestOf(b).device
  {
    var s, t := Ranges(b, d, n), Ranges(b2, d2, n);
    RangesLists(b, d, n);
    RangesLists(b2, d2, n);
    ResizedShifted(b, d, b2, d2, n, i, p, u, v);
    ListShifted(s, Range(d, |b|), Entries(b, d), t, Range(d2, |b2|), Entries(b2, d2), n, i, p, u, v);
    DeviceMoved(b, d, s, b2, d2, t, i + 1, p, u, v);
    forall j: nat | j < n && j != i
      ensures SectionAt(b, d, j) == SectionAt(b2, d2, j)
    {
      SectionsMoved(b, d, b2, d2, n, i, p, u, v, j);
    }
    SectionsKept(b, d, b2, d2, n, OtherThan(i));
  }
}
