/**
  The streaming safetensors writer and the checks that decide whether a shard found on disk is complete
  (`glm52_prep.py`, `glm52_prep_full.py`, `glm52_prep_fp8_linear.py`, `kimi_k3_prep.py`).

  A file is an 8-byte little-endian length, a header blob padded with spaces, and the data.  JSON text is a
  parameter: any printer and parser that recover a header from its blob, spaces included.
 */
module Safetensors {
  import opened Common

  /** One header record; offsets count from the end of the header. */
  datatype Info = Info(dtype: string, shape: seq<nat>, start: nat, end: nat)

  type Header = map<string, Info>

  datatype Json = Json(dumps: Header -> Bytes, loads: Bytes -> Option<Header>)

  function Spaces(n: nat): Bytes { seq(n, _ => 32) }

  ghost predicate RoundTrips(json: Json) {
    forall h, n {:trigger json.dumps(h) + Spaces(n)} :: json.loads(json.dumps(h) + Spaces(n)) == Some(h)
  }

  // --- the length field ---------------------------------------------------

  function LittleEndian(n: nat, width: nat): (b: Bytes)
    ensures |b| == width
  {
    if width == 0 then [] else [n % 256] + LittleEndian(n / 256, width - 1)
  }

  function Capacity(width: nat): nat {
    if width == 0 then 1 else 256 * Capacity(width - 1)
  }

  lemma {:induction false} LittleEndianRoundTrip(n: nat, width: nat)
    requires n < Capacity(width)
    ensures FromLittleEndian(LittleEndian(n, width)) == n
  {
    if width > 0 {
      LittleEndianRoundTrip(n / 256, width - 1);
      assert LittleEndian(n, width)[1..] == LittleEndian(n / 256, width - 1);
    }
  }

  lemma ScaledLater(low: nat, c: nat, high: nat)
    ensures 256 * (low + c * high) == 256 * low + (256 * c) * high
  {
  }

  /** The first byte is the lowest: what follows counts from where the first bytes end. */
  lemma {:induction false} LittleEndianConcat(a: Bytes, b: Bytes)
    ensures FromLittleEndian(a + b) == FromLittleEndian(a) + Capacity(|a|) * FromLittleEndian(b)
    ensures |a| == 1 ==> FromLittleEndian(a) == a[0]
  {
    if a == [] {
      assert a + b == b;
    } else {
      LittleEndianConcat(a[1..], b);
      assert (a + b)[1..] == a[1..] + b;
      ScaledLater(FromLittleEndian(a[1..]), Capacity(|a| - 1), FromLittleEndian(b));
    }
  }

  /** The number of elements of a shape. */
  function Elements(shape: seq<nat>): (n: nat)
    ensures |shape| == 1 ==> n == shape[0]
  {
    if shape == [] then 1 else shape[0] * Elements(shape[1..])
  }

  // --- the writer ---------------------------------------------------------

  /** A registered tensor: what it is declared as, and what its producer will write. */
  datatype Entry = Entry(name: string, dtype: string, shape: seq<nat>, nbytes: nat, data: Bytes)

  function TotalBytes(entries: seq<Entry>): nat {
    if entries == [] then 0 else TotalBytes(Init(entries)) + Last(entries).nbytes
  }

  function Init<T>(s: seq<T>): seq<T>
    requires s != []
  {
    s[..|s| - 1]
  }

  function Last<T>(s: seq<T>): T
    requires s != []
  {
    s[|s| - 1]
  }

  function HeaderOf(entries: seq<Entry>): Header {
    if entries == [] then map[]
    else
      var e, off := Last(entries), TotalBytes(Init(entries));
      HeaderOf(Init(entries))[e.name := Info(e.dtype, e.shape, off, off + e.nbytes)]
  }

  function AllData(entries: seq<Entry>): Bytes {
    if entries == [] then [] else AllData(Init(entries)) + Last(entries).data
  }

  /** The header blob, padded so that the data starts at a multiple of 8. */
  function Padded(json: Json, header: Header): Bytes {
    var blob := json.dumps(header);
    blob + Spaces((8 - (8 + |blob|) % 8) % 8)
  }

  function FileOf(json: Json, entries: seq<Entry>): Bytes {
    var blob := Padded(json, HeaderOf(entries));
    LittleEndian(|blob|, 8) + blob + AllData(entries)
  }

  ghost predicate Honest(entries: seq<Entry>) {
    forall e :: e in entries ==> |e.data| == e.nbytes
  }

  /** `order` lists the header's names by start offset. */
  ghost predicate SortedNames(header: Header, order: seq<string>) {
    && (forall name :: name in header <==> name in order)
    && Distinct(order)
    && forall i, j :: 0 <= i < j < |order| ==> header[order[i]].start <= header[order[j]].start
  }

  class STWriter {
    var entries: seq<Entry>

    constructor ()
      ensures entries == []
    {
      entries := [];
    }

    method Add(name: string, dtype: string, shape: seq<nat>, nbytes: nat, data: Bytes)
      modifies this
      ensures entries == old(entries) + [Entry(name, dtype, shape, nbytes, data)]
    {
      entries := entries + [Entry(name, dtype, shape, nbytes, data)];
    }

    /** First pass: names, shapes and offsets. */
    method Layout() returns (header: Header, total: nat)
      ensures header == HeaderOf(entries) && total == TotalBytes(entries)
    {
      header, total := map[], 0;
      for i := 0 to |entries|
        invariant header == HeaderOf(entries[..i]) && total == TotalBytes(entries[..i])
      {
        assert Init(entries[..i + 1]) == entries[..i];
        var e := entries[i];
        header := header[e.name := Info(e.dtype, e.shape, total, total + e.nbytes)];
        total := total + e.nbytes;
      }
      assert entries[..|entries|] == entries;
    }

    /** Second pass: every producer in turn, stopped by one that writes another length than it declared. */
    method Stream(head: Bytes) returns (out: Option<Bytes>)
      ensures out.Some? <==> Honest(entries)
      ensures out.Some? ==> out.value == head + AllData(entries)
    {
      var written := head;
      for i := 0 to |entries|
        invariant written == head + AllData(entries[..i])
        invariant Honest(entries[..i])
      {
        assert Init(entries[..i + 1]) == entries[..i];
        var start := |written|;
        written := written + entries[i].data;
        if |written| - start != entries[i].nbytes {
          assert entries[i] in entries;
          return None;
        }
      }
      assert entries[..|entries|] == entries;
      out := Some(written);
    }

    /** The file and the data size it reports. */
    method Flush(json: Json) returns (file: Result<Bytes>, total: nat)
      ensures file.Success? <==> Honest(entries) && |Padded(json, HeaderOf(entries))| < Capacity(8)
      ensures file.Success? ==> file.value == FileOf(json, entries) && total == TotalBytes(entries)
    {
      var header: Header;
      header, total := Layout();
      var blob := Padded(json, header);
      if |blob| >= Capacity(8) {
        return Failure("header too long"), total;
      }
      var out := Stream(LittleEndian(|blob|, 8) + blob);
      if out.None? {
        return Failure("a tensor wrote another size than declared"), total;
      }
      file := Success(out.value);
    }
  }

  // --- the reader ---------------------------------------------------------

  /** Length field and header of a file; `None` where reading or parsing would raise. */
  function ParseHead(json: Json, file: Bytes): Option<(nat, Header)> {
    if |file| < 8 then None
    else
      var n := FromLittleEndian(file[..8]);
      var blob := if 8 + n <= |file| then file[8..8 + n] else file[8..];
      var h := json.loads(blob);
      if h.None? then None else Some((n, h.value))
  }

  /** The bytes a parsed head gives `name`. */
  function ReadUnder(head: Option<(nat, Header)>, file: Bytes, name: string): Option<Bytes> {
    if head.None? || name !in head.value.1 then None
    else
      var base, info := 8 + head.value.0, head.value.1[name];
      if info.start <= info.end && base + info.end <= |file| then Some(file[base + info.start..base + info.end])
      else None
  }

  function ReadTensor(json: Json, file: Bytes, name: string): Option<Bytes> {
    ReadUnder(ParseHead(json, file), file, name)
  }

  lemma PaddedAligned(json: Json, header: Header)
    ensures (8 + |Padded(json, header)|) % 8 == 0
    ensures var blob, text := Padded(json, header), json.dumps(header);
            && |text| <= |blob| < |text| + 8 && blob[..|text|] == text
            && forall i :: |text| <= i < |blob| ==> blob[i] == 32
  {
  }

  /** A well-headed file parses back to its header, whatever data follows. */
  lemma HeadRoundTrip(json: Json, header: Header, data: Bytes)
    requires RoundTrips(json) && |Padded(json, header)| < Capacity(8)
    ensures var blob := Padded(json, header);
            ParseHead(json, LittleEndian(|blob|, 8) + blob + data) == Some((|blob|, header))
  {
    var blob := Padded(json, header);
    var file := LittleEndian(|blob|, 8) + blob + data;
    LittleEndianRoundTrip(|blob|, 8);
    assert file[..8] == LittleEndian(|blob|, 8);
    assert file[8..8 + |blob|] == blob;
    var text := json.dumps(header);
    assert json.loads(text + Spaces((8 - (8 + |text|) % 8) % 8)) == Some(header);
  }

  /** The bytes the last entry of this name registered, if any. */
  function Registered(entries: seq<Entry>, name: string): Option<Bytes> {
    if entries == [] then None
    else if Last(entries).name == name then Some(Last(entries).data)
    else Registered(Init(entries), name)
  }

  lemma TailSlice(a: Bytes, b: Bytes)
    ensures (a + b)[|a|..|a| + |b|] == b
  {
  }

  lemma HeadSlice(a: Bytes, b: Bytes, lo: nat, hi: nat)
    requires lo <= hi <= |a|
    ensures (a + b)[lo..hi] == a[lo..hi]
  {
  }

  lemma AfterHead(head: Bytes, data: Bytes, lo: nat, hi: nat)
    requires lo <= hi <= |data|
    ensures (head + data)[|head| + lo..|head| + hi] == data[lo..hi]
  {
  }

  /** The record of `name` cuts its last registered bytes out of the data, or there is neither. */
  ghost predicate CutsLast(header: Header, data: Bytes, name: string, registered: Option<Bytes>) {
    if name in header then
      var info := header[name];
      info.start <= info.end <= |data| && registered == Some(data[info.start..info.end])
    else registered.None?
  }

  lemma CutAfterMore(header: Header, data: Bytes, more: Bytes, name: string, registered: Option<Bytes>)
    requires CutsLast(header, data, name, registered)
    ensures CutsLast(header, data + more, name, registered)
  {
    if name in header {
      HeadSlice(data, more, header[name].start, header[name].end);
    }
  }

  lemma {:induction false} DataLength(entries: seq<Entry>)
    requires Honest(entries)
    ensures |AllData(entries)| == TotalBytes(entries)
  {
    if entries != [] {
      assert Last(entries) in entries && forall e :: e in Init(entries) ==> e in entries;
      DataLength(Init(entries));
    }
  }

  lemma {:induction false} OffsetsCutData(entries: seq<Entry>, name: string)
    requires Honest(entries)
    ensures CutsLast(HeaderOf(entries), AllData(entries), name, Registered(entries, name))
  {
    if entries != [] {
      var init, last := Init(entries), Last(entries);
      assert last in entries && forall e :: e in init ==> e in entries;
      DataLength(init);
      var info := Info(last.dtype, last.shape, TotalBytes(init), TotalBytes(init) + last.nbytes);
      if last.name == name {
        CutOfLast(HeaderOf(init), AllData(init), last.data, name, info);
      } else {
        OffsetsCutData(init, name);
        CutAfterMore(HeaderOf(init), AllData(init), last.data, name, Registered(init, name));
        CutOfOther(HeaderOf(init), AllData(entries), name, Registered(init, name), last.name, info);
      }
    }
  }

  lemma CutOfLast(header: Header, data: Bytes, more: Bytes, name: string, info: Info)
    requires info.start == |data| && info.end == |data| + |more|
    ensures CutsLast(header[name := info], data + more, name, Some(more))
  {
    TailSlice(data, more);
  }

  lemma CutOfOther(header: Header, data: Bytes, name: string, registered: Option<Bytes>, other: string, info: Info)
    requires CutsLast(header, data, name, registered) && other != name
    ensures CutsLast(header[other := info], data, name, registered)
  {
  }

  /** Reading any name from a flushed file gives exactly the bytes registered last under it. */
  lemma ReadBack(json: Json, entries: seq<Entry>, name: string)
    requires RoundTrips(json) && Honest(entries) && |Padded(json, HeaderOf(entries))| < Capacity(8)
    ensures ReadTensor(json, FileOf(json, entries), name) == Registered(entries, name)
  {
    var header := HeaderOf(entries);
    HeadRoundTrip(json, header, AllData(entries));
    OffsetsCutData(entries, name);
    if name in header {
      var blob := Padded(json, header);
      AfterHead(LittleEndian(|blob|, 8) + blob, AllData(entries), header[name].start, header[name].end);
    }
  }

  ghost predicate DistinctNames(entries: seq<Entry>) {
    forall i, j :: 0 <= i < j < |entries| ==> entries[i].name != entries[j].name
  }

  /** ... so reading one of distinct names gives the bytes registered under it. */
  lemma {:induction false} RegisteredAt(entries: seq<Entry>, i: nat)
    requires DistinctNames(entries) && i < |entries|
    ensures Registered(entries, entries[i].name) == Some(entries[i].data)
    decreases |entries|
  {
    if i < |entries| - 1 {
      RegisteredAt(Init(entries), i);
    }
  }

  /** With distinct names the records tile the data in registration order, without hole or overlap. */
  lemma {:induction false} OffsetsTile(entries: seq<Entry>, i: nat)
    requires DistinctNames(entries) && i < |entries|
    ensures entries[i].name in HeaderOf(entries)
    ensures var info := HeaderOf(entries)[entries[i].name];
            && info.dtype == entries[i].dtype && info.shape == entries[i].shape
            && info.start == TotalBytes(entries[..i])
            && info.end == TotalBytes(entries[..i + 1]) == info.start + entries[i].nbytes
    decreases |entries|
  {
    assert Init(entries[..i + 1]) == entries[..i];
    if i < |entries| - 1 {
      OffsetsTile(Init(entries), i);
      assert Init(entries)[..i] == entries[..i] && Init(entries)[..i + 1] == entries[..i + 1];
    } else {
      assert entries[..i + 1] == entries;
    }
  }

  // --- is a shard on disk complete? ---------------------------------------

  ghost predicate IsDataEnd(header: Header, end: nat) {
    && (forall name :: name in header ==> header[name].end <= end)
    && (end == 0 || exists name :: name in header && header[name].end == end)
  }

  /** The largest declared end offset; 0 for an empty header. */
  method DataEnd(header: Header) returns (end: nat)
    ensures IsDataEnd(header, end)
  {
    end := 0;
    var left := header.Keys;
    while left != {}
      invariant left <= header.Keys
      invariant forall name :: name in header && name !in left ==> header[name].end <= end
      invariant end == 0 || exists name :: name in header && header[name].end == end
      decreases |left|
    {
      var name :| name in left;
      if header[name].end > end {
        end := header[name].end;
      }
      left := left - {name};
    }
  }

  /** The resume check: the header parses and the size is what it declares. */
  ghost predicate Complete(json: Json, file: Bytes) {
    var head := ParseHead(json, file);
    head.Some? && exists end :: IsDataEnd(head.value.1, end) && |file| == 8 + head.value.0 + end
  }

  method ShardOk(json: Json, file: Bytes) returns (ok: bool)
    ensures ok <==> Complete(json, file)
  {
    var head := ParseHead(json, file);
    if head.None? {
      return false;
    }
    var end := DataEnd(head.value.1);
    ok := |file| == 8 + head.value.0 + end;
    if !ok {
      forall end2 | IsDataEnd(head.value.1, end2)
        ensures end2 == end
      {
        DataEndUnique(head.value.1, end, end2);
      }
    }
  }

  lemma DataEndUnique(header: Header, a: nat, b: nat)
    requires IsDataEnd(header, a) && IsDataEnd(header, b)
    ensures a == b
  {
  }

  lemma {:induction false} TotalIsDataEnd(entries: seq<Entry>)
    ensures IsDataEnd(HeaderOf(entries), TotalBytes(entries))
  {
    if entries != [] {
      TotalIsDataEnd(Init(entries));
      assert Last(entries).name in HeaderOf(entries);
    }
  }

  /** Behind an intact header, a shard counts as complete exactly when its data has the declared length. */
  lemma CompleteIffDataLength(json: Json, entries: seq<Entry>, data: Bytes)
    requires RoundTrips(json) && |Padded(json, HeaderOf(entries))| < Capacity(8)
    ensures var blob := Padded(json, HeaderOf(entries));
            Complete(json, LittleEndian(|blob|, 8) + blob + data) <==> |data| == TotalBytes(entries)
  {
    var header := HeaderOf(entries);
    HeadRoundTrip(json, header, data);
    TotalIsDataEnd(entries);
    if end :| IsDataEnd(header, end) && end != TotalBytes(entries) {
      DataEndUnique(header, end, TotalBytes(entries));
    }
  }

  /** A flushed file is complete; no proper prefix of it is, wherever the flush was interrupted. */
  lemma FlushedComplete(json: Json, entries: seq<Entry>, k: nat)
    requires RoundTrips(json) && Honest(entries) && |Padded(json, HeaderOf(entries))| < Capacity(8)
    requires k <= |FileOf(json, entries)|
    ensures Complete(json, FileOf(json, entries)[..k]) <==> k == |FileOf(json, entries)|
  {
    var header := HeaderOf(entries);
    var blob := Padded(json, header);
    var file := FileOf(json, entries);
    DataLength(entries);
    if k < 8 {
    } else if k < 8 + |blob| {
      assert file[..k][..8] == LittleEndian(|blob|, 8);
      LittleEndianRoundTrip(|blob|, 8);
    } else {
      var data := AllData(entries)[..k - 8 - |blob|];
      assert file[..k] == LittleEndian(|blob|, 8) + blob + data;
      CompleteIffDataLength(json, entries, data);
    }
  }

  /** The stricter resume check: the header on disk is the planned one, and the size fits it. */
  method ShardMatches(json: Json, file: Bytes, planned: seq<Entry>) returns (ok: bool)
    ensures ok <==> Matches(json, file, planned)
  {
    var head := ParseHead(json, file);
    if head.None? {
      return false;
    }
    var w := new STWriter();
    w.entries := planned;
    var expected, end := w.Layout();
    ok := head.value.1 == expected && |file| == 8 + head.value.0 + end;
  }

  ghost predicate Matches(json: Json, file: Bytes, planned: seq<Entry>) {
    var head := ParseHead(json, file);
    head.Some? && head.value.1 == HeaderOf(planned) && |file| == 8 + head.value.0 + TotalBytes(planned)
  }

  /** Of all prefixes of all flushed files, a plan is matched by the whole files with its header, and no other. */
  lemma MatchesIffSamePlan(json: Json, written: seq<Entry>, planned: seq<Entry>, k: nat)
    requires RoundTrips(json) && Honest(written) && |Padded(json, HeaderOf(written))| < Capacity(8)
    requires k <= |FileOf(json, written)|
    ensures Matches(json, FileOf(json, written)[..k], planned) <==>
            k == |FileOf(json, written)| && HeaderOf(written) == HeaderOf(planned)
  {
    var file := FileOf(json, written);
    FlushedComplete(json, written, k);
    TotalIsDataEnd(planned);
    TotalIsDataEnd(written);
    DataLength(written);
    HeadRoundTrip(json, HeaderOf(written), AllData(written));
    if k == |file| {
      assert file[..k] == file;
      if HeaderOf(written) == HeaderOf(planned) {
        DataEndUnique(HeaderOf(written), TotalBytes(written), TotalBytes(planned));
      }
    }
  }
}
