/** Republishing tensors byte for byte (`glm52_prep_fp8_linear.py`, `glm53_prep_blk.py`, `gemma4_fp8_vllm_ckpt.py`):
    records into source files, concatenated or cut along their first dimension, and the export whose header alone is
    rewritten. */
module Shards {
  import opened Common
  import opened Safetensors

  /** Where a tensor's bytes are: file, byte range, and how they are declared. */
  datatype Rec = Rec(path: string, a: nat, b: nat, dtype: string, shape: seq<nat>)

  type Disk = map<string, Bytes>

  predicate OnDisk(disk: Disk, rec: Rec) {
    rec.path in disk && rec.a <= rec.b <= |disk[rec.path]|
  }

  function BytesOf(disk: Disk, rec: Rec): Bytes
    requires OnDisk(disk, rec)
  {
    disk[rec.path][rec.a..rec.b]
  }

  predicate AllOnDisk(disk: Disk, parts: seq<Rec>) {
    forall i :: 0 <= i < |parts| ==> OnDisk(disk, parts[i])
  }

  function Joined(disk: Disk, parts: seq<Rec>): Bytes
    requires AllOnDisk(disk, parts)
  {
    if parts == [] then [] else Joined(disk, parts[..|parts| - 1]) + BytesOf(disk, parts[|parts| - 1])
  }

  /** What reading up to `n` bytes at `pos` returns. */
  function Read(src: Bytes, pos: nat, n: nat): Bytes {
    if |src| <= pos then [] else if |src| < pos + n then src[pos..] else src[pos..pos + n]
  }

  lemma ReadContinues(src: Bytes, offset: nat, pos: nat, n: nat)
    requires offset <= pos < |src|
    ensures pos + |Read(src, pos, n)| <= |src|
    ensures src[offset..pos] + Read(src, pos, n) == src[offset..pos + |Read(src, pos, n)|]
  {
  }

  /** Copies `length` bytes from `offset` on, a block at a time; fails where the source ends early. */
  method CopyRange(src: Bytes, dst: Bytes, offset: nat, length: nat, chunk: nat) returns (out: Option<Bytes>)
    requires chunk > 0
    ensures out.Some? <==> length == 0 || offset + length <= |src|
    ensures out.Some? ==> out.value == dst + if length == 0 then [] else src[offset..offset + length]
  {
    var written := dst;
    var pos: nat, remaining: nat := offset, length;
    while remaining > 0
      invariant pos - offset == length - remaining >= 0
      invariant remaining < length ==> pos <= |src| && written == dst + src[offset..pos]
      invariant remaining == length ==> written == dst
    {
      var block := Read(src, pos, if chunk < remaining then chunk else remaining);
      if block == [] {
        return None;
      }
      ReadContinues(src, offset, pos, if chunk < remaining then chunk else remaining);
      written := written + block;
      pos, remaining := pos + |block|, remaining - |block|;
    }
    out := Some(written);
  }

  // --- concatenated records -----------------------------------------------

  predicate Compatible(parts: seq<Rec>) {
    && parts != []
    && parts[0].shape != []
    && forall i :: 0 <= i < |parts| ==>
         parts[i].shape != [] && parts[i].dtype == parts[0].dtype && parts[i].shape[1..] == parts[0].shape[1..]
  }

  function TotalRows(parts: seq<Rec>): nat
    requires forall i :: 0 <= i < |parts| ==> parts[i].shape != []
  {
    if parts == [] then 0 else TotalRows(parts[..|parts| - 1]) + parts[|parts| - 1].shape[0]
  }

  /** The one tensor that `parts` publish: rows summed, bytes joined. */
  function Published(disk: Disk, name: string, parts: seq<Rec>): Entry
    requires Compatible(parts) && AllOnDisk(disk, parts)
  {
    var data := Joined(disk, parts);
    Entry(name, parts[0].dtype, [TotalRows(parts)] + parts[0].shape[1..], |data|, data)
  }

  ghost predicate AllCompatible(groups: seq<seq<Rec>>) {
    forall i :: 0 <= i < |groups| ==> Compatible(groups[i])
  }

  ghost predicate GroupsOnDisk(disk: Disk, groups: seq<seq<Rec>>) {
    forall i :: 0 <= i < |groups| ==> AllOnDisk(disk, groups[i])
  }

  ghost function PublishedAll(disk: Disk, names: seq<string>, groups: seq<seq<Rec>>): seq<Entry>
    requires |names| == |groups| && AllCompatible(groups) && GroupsOnDisk(disk, groups)
  {
    seq(|names|, i requires 0 <= i < |names| => Published(disk, names[i], groups[i]))
  }

  /** `write_shard`: refuses incompatible parts, else streams every part in blocks behind the header. */
  method WriteShard(json: Json, disk: Disk, names: seq<string>, groups: seq<seq<Rec>>) returns (file: Result<Bytes>)
    requires |names| == |groups| && GroupsOnDisk(disk, groups)
    ensures file.Success? <==>
              AllCompatible(groups) && |Padded(json, HeaderOf(PublishedAll(disk, names, groups)))| < Capacity(8)
    ensures file.Success? ==> file.value == FileOf(json, PublishedAll(disk, names, groups))
  {
    var w := new STWriter();
    for i := 0 to |groups|
      invariant |w.entries| == i && fresh(w)
      invariant forall k :: 0 <= k < i ==> Compatible(groups[k]) && w.entries[k] == Published(disk, names[k], groups[k])
    {
      if !Compatible(groups[i]) {
        return Failure(names[i]);
      }
      var data := StreamParts(disk, groups[i]);
      w.Add(names[i], groups[i][0].dtype, [TotalRows(groups[i])] + groups[i][0].shape[1..], |data|, data);
    }
    assert w.entries == PublishedAll(disk, names, groups);
    var total;
    file, total := w.Flush(json);
  }

  method StreamParts(disk: Disk, parts: seq<Rec>) returns (data: Bytes)
    requires AllOnDisk(disk, parts)
    ensures data == Joined(disk, parts)
  {
    data := [];
    for i := 0 to |parts|
      invariant data == Joined(disk, parts[..i])
    {
      assert parts[..i + 1][..i] == parts[..i];
      var copied := CopyRange(disk[parts[i].path], data, parts[i].a, parts[i].b - parts[i].a, 0x100_0000);
      data := copied.value;
    }
    assert parts[..|parts|] == parts;
  }

  /** Where each part's rows begin among all; the last place is the end. */
  ghost predicate RowStarts(at: seq<nat>, parts: seq<Rec>) {
    && |at| == |parts| + 1 && at[0] == 0
    && forall k :: 0 <= k < |parts| ==> parts[k].shape != [] && at[k + 1] == at[k] + parts[k].shape[0]
  }

  /** Where each part's bytes begin among all. */
  ghost predicate ByteStarts(at: seq<nat>, parts: seq<Rec>) {
    && |at| == |parts| + 1 && at[0] == 0
    && forall k :: 0 <= k < |parts| ==> at[k + 1] == at[k] + (parts[k].b - parts[k].a)
  }

  /** The published first dimension is the sum of the parts' first dimensions. */
  lemma {:induction false} RowsAddUp(parts: seq<Rec>, at: seq<nat>)
    requires RowStarts(at, parts)
    ensures TotalRows(parts) == at[|parts|]
  {
    if parts != [] {
      RowsAddUp(parts[..|parts| - 1], at[..|parts|]);
    }
  }

  /** The published bytes are the parts' bytes, one part after the other. */
  lemma {:induction false} PartsInOrder(disk: Disk, parts: seq<Rec>, at: seq<nat>, k: nat)
    requires AllOnDisk(disk, parts) && k < |parts|
    requires ByteStarts(at, parts)
    ensures at[k] <= at[k + 1] <= at[|parts|] == |Joined(disk, parts)|
    ensures Joined(disk, parts)[at[k]..at[k + 1]] == disk[parts[k].path][parts[k].a..parts[k].b]
    decreases |parts|
  {
    var n := |parts| - 1;
    JoinedEnds(disk, parts[..n], at[..n + 1]);
    JoinedEnds(disk, parts, at);
    var before := Joined(disk, parts[..n]);
    if k == n {
      assert Joined(disk, parts)[|before|..] == BytesOf(disk, parts[n]);
    } else {
      PartsInOrder(disk, parts[..n], at[..n + 1], k);
      assert Joined(disk, parts)[at[k]..at[k + 1]] == before[at[k]..at[k + 1]];
    }
  }

  lemma {:induction false} JoinedEnds(disk: Disk, parts: seq<Rec>, at: seq<nat>)
    requires AllOnDisk(disk, parts) && ByteStarts(at, parts)
    ensures |Joined(disk, parts)| == at[|parts|]
  {
    var n := |parts| - 1;
    if n >= 0 {
      JoinedEnds(disk, parts[..n], at[..n + 1]);
    }
  }

  /** The part's bytes are its rows, `width` bytes each. */
  predicate RowsFit(rec: Rec, width: nat) {
    rec.shape != [] && rec.a <= rec.b && rec.b - rec.a == rec.shape[0] * width
  }

  lemma {:induction false} JoinedFits(disk: Disk, parts: seq<Rec>, width: nat)
    requires AllOnDisk(disk, parts) && forall k :: 0 <= k < |parts| ==> parts[k].shape != [] && RowsFit(parts[k], width)
    ensures |Joined(disk, parts)| == TotalRows(parts) * width
  {
    var n := |parts| - 1;
    if n >= 0 {
      JoinedFits(disk, parts[..n], width);
      assert RowsFit(parts[n], width);
      assert (TotalRows(parts[..n]) + parts[n].shape[0]) * width
          == TotalRows(parts[..n]) * width + parts[n].shape[0] * width;
    }
  }

  /** What the written header says of a concatenation: the parts' type, the sum of their first dimensions, their
      other dimensions, and as many bytes as these rows take. */
  lemma ConcatenationDeclared(json: Json, disk: Disk, names: seq<string>, groups: seq<seq<Rec>>, i: nat,
                              at: seq<nat>, width: nat)
    requires RoundTrips(json) && |names| == |groups| && i < |names| && Distinct(names)
    requires AllCompatible(groups) && GroupsOnDisk(disk, groups)
    requires |Padded(json, HeaderOf(PublishedAll(disk, names, groups)))| < Capacity(8)
    requires RowStarts(at, groups[i])
    requires forall k :: 0 <= k < |groups[i]| ==> RowsFit(groups[i][k], width)
    ensures var head := ParseHead(json, FileOf(json, PublishedAll(disk, names, groups)));
            head.Some? && names[i] in head.value.1 && Declares(head.value.1[names[i]], groups[i], at, width)
  {
    var entries, parts := PublishedAll(disk, names, groups), groups[i];
    HeadRoundTrip(json, HeaderOf(entries), AllData(entries));
    OffsetsTile(entries, i);
    assert Compatible(parts) && AllOnDisk(disk, parts);
    RowsAddUp(parts, at);
    JoinedFits(disk, parts, width);
  }

  ghost predicate Declares(info: Info, parts: seq<Rec>, at: seq<nat>, width: nat)
    requires |at| == |parts| + 1
  {
    && (forall k :: 0 <= k < |parts| ==> info.dtype == parts[k].dtype)
    && info.shape != [] && info.shape[0] == at[|parts|]
    && (forall k :: 0 <= k < |parts| ==> parts[k].shape != [] && info.shape[1..] == parts[k].shape[1..])
    && info.start <= info.end && info.end - info.start == at[|parts|] * width
  }

  // --- resuming a concatenated shard ----------------------------------------

  /** The bytes that `parts` declare. */
  function PartBytes(parts: seq<Rec>): nat
    requires forall i :: 0 <= i < |parts| ==> parts[i].a <= parts[i].b
  {
    if parts == [] then 0
    else PartBytes(parts[..|parts| - 1]) + (parts[|parts| - 1].b - parts[|parts| - 1].a)
  }

  ghost predicate AllForward(groups: seq<seq<Rec>>) {
    forall i, k :: 0 <= i < |groups| && 0 <= k < |groups[i]| ==> groups[i][k].a <= groups[i][k].b
  }

  /** The planned tensor: declared from the records alone, without data. */
  function Planned(name: string, parts: seq<Rec>): Entry
    requires Compatible(parts) && forall i :: 0 <= i < |parts| ==> parts[i].a <= parts[i].b
  {
    Entry(name, parts[0].dtype, [TotalRows(parts)] + parts[0].shape[1..], PartBytes(parts), [])
  }

  ghost function PlannedAll(names: seq<string>, groups: seq<seq<Rec>>): seq<Entry>
    requires |names| == |groups| && AllCompatible(groups) && AllForward(groups)
  {
    seq(|names|, i requires 0 <= i < |names| => Planned(names[i], groups[i]))
  }

  /** `shard_ok`: false without a readable head, an error for incompatible parts, else the planned header and size. */
  method PlannedShardOk(json: Json, file: Bytes, names: seq<string>, groups: seq<seq<Rec>>) returns (ok: Result<bool>)
    requires |names| == |groups| && AllForward(groups)
    ensures ok.Failure? <==> ParseHead(json, file).Some? && !AllCompatible(groups)
    ensures ok.Success? ==>
              (ok.value <==> AllCompatible(groups) && Matches(json, file, PlannedAll(names, groups)))
  {
    if ParseHead(json, file).None? {
      return Success(false);
    }
    var planned: seq<Entry> := [];
    for i := 0 to |groups|
      invariant |planned| == i
      invariant forall k :: 0 <= k < i ==> Compatible(groups[k]) && planned[k] == Planned(names[k], groups[k])
    {
      if !Compatible(groups[i]) {
        return Failure(names[i]);
      }
      planned := planned + [Planned(names[i], groups[i])];
    }
    assert planned == PlannedAll(names, groups);
    var matches := ShardMatches(json, file, planned);
    ok := Success(matches);
  }

  lemma {:induction false} JoinedLength(disk: Disk, parts: seq<Rec>)
    requires AllOnDisk(disk, parts) && forall i :: 0 <= i < |parts| ==> parts[i].a <= parts[i].b
    ensures |Joined(disk, parts)| == PartBytes(parts)
  {
    if parts != [] {
      JoinedLength(disk, parts[..|parts| - 1]);
    }
  }

  /** Entries that differ in their data alone. */
  ghost predicate SameButData(a: seq<Entry>, b: seq<Entry>) {
    |a| == |b| && forall i :: 0 <= i < |a| ==> a[i] == b[i].(data := a[i].data)
  }

  lemma {:induction false} HeaderIgnoresData(a: seq<Entry>, b: seq<Entry>)
    requires SameButData(a, b)
    ensures HeaderOf(a) == HeaderOf(b) && TotalBytes(a) == TotalBytes(b)
  {
    if a != [] {
      assert forall i :: 0 <= i < |Init(a)| ==> Init(a)[i] == a[i] && Init(b)[i] == b[i];
      HeaderIgnoresData(Init(a), Init(b));
    }
  }

  /** Of all prefixes of the shard written from these records, the check accepts the whole file and no other. */
  lemma ResumeIffWhole(json: Json, disk: Disk, names: seq<string>, groups: seq<seq<Rec>>, k: nat)
    requires RoundTrips(json) && |names| == |groups|
    requires AllCompatible(groups) && AllForward(groups) && GroupsOnDisk(disk, groups)
    requires |Padded(json, HeaderOf(PublishedAll(disk, names, groups)))| < Capacity(8)
    requires k <= |FileOf(json, PublishedAll(disk, names, groups))|
    ensures Matches(json, FileOf(json, PublishedAll(disk, names, groups))[..k], PlannedAll(names, groups)) <==>
            k == |FileOf(json, PublishedAll(disk, names, groups))|
  {
    var written, planned := PublishedAll(disk, names, groups), PlannedAll(names, groups);
    forall i | 0 <= i < |names|
      ensures planned[i] == written[i].(data := planned[i].data)
    {
      JoinedLength(disk, groups[i]);
    }
    HeaderIgnoresData(planned, written);
    MatchesIffSamePlan(json, written, planned, k);
  }

  // --- the renamed export -------------------------------------------------

  const PREFIX := "fp8/"

  predicate EndsWith(s: string, suffix: string) {
    |suffix| <= |s| && s[|s| - |suffix|..] == suffix
  }

  function Prefixed(bare: string): string { PREFIX + bare }

  function Bare(name: string): string
    requires PREFIX <= name
  {
    name[|PREFIX|..]
  }

  /** The header record a twin tensor gets: scales become a column, weights keep their shape. */
  function Renamed(name: string, info: Info): Option<Info> {
    if !(PREFIX <= name) then None
    else if EndsWith(Bare(name), ".weight_scale") then
      if |info.shape| == 1 then Some(info.(shape := [info.shape[0], 1])) else None
    else if EndsWith(Bare(name), ".weight") then Some(info)
    else None
  }

  ghost predicate Contiguous(header: Header, order: seq<string>)
    requires SortedNames(header, order)
  {
    && order != []
    && header[order[0]].start == 0
    && forall i :: 0 <= i < |order| - 1 ==> header[order[i]].end == header[order[i + 1]].start
  }

  method IsContiguous(header: Header, order: seq<string>) returns (ok: bool)
    requires SortedNames(header, order)
    ensures ok <==> Contiguous(header, order)
  {
    if order == [] || header[order[0]].start != 0 {
      return false;
    }
    for i := 0 to |order| - 1
      invariant forall k :: 0 <= k < i ==> header[order[k]].end == header[order[k + 1]].start
    {
      if header[order[i]].end != header[order[i + 1]].start {
        return false;
      }
    }
    ok := true;
  }

  /** The record of `name` stands under its bare name. */
  ghost predicate Carries(name: string, info: Info, renamed: Header) {
    PREFIX <= name && Bare(name) in renamed && Some(renamed[Bare(name)]) == Renamed(name, info)
  }

  /** `renamed` is `header` under bare names: each record once, none lost, none added. */
  ghost predicate RenamesAll(header: Header, renamed: Header) {
    && (forall name {:trigger Carries(name, header[name], renamed)} ::
          name in header ==> Carries(name, header[name], renamed))
    && forall bare {:trigger Prefixed(bare)} :: bare in renamed ==> Prefixed(bare) in header
  }

  /** Stripping the prefix never makes two names one. */
  lemma BareInjective(a: string, b: string)
    requires PREFIX <= a && PREFIX <= b && Bare(a) == Bare(b)
    ensures a == b == Prefixed(Bare(a))
  {
    assert a == PREFIX + a[|PREFIX|..] && b == PREFIX + b[|PREFIX|..];
  }

  lemma CarriesOther(name: string, info: Info, renamed: Header, other: string, info2: Info)
    requires Carries(name, info, renamed) && PREFIX <= other && other != name
    ensures Carries(name, info, renamed[Bare(other) := info2])
  {
    if Bare(name) == Bare(other) {
      BareInjective(name, other);
    }
  }

  /** Exactly the weights, and the scales of one dimension, are taken; a scale becomes a column and a weight keeps
      its shape. */
  lemma RenamedIff(stem: string, info: Info)
    ensures Renamed("fp8/" + stem + ".weight", info) == Some(info)
    ensures Renamed("fp8/" + stem + ".weight_scale", info).Some? <==> |info.shape| == 1
    ensures |info.shape| == 1 ==>
              Renamed("fp8/" + stem + ".weight_scale", info) == Some(info.(shape := [info.shape[0], 1]))
  {
    BareIs(stem + ".weight");
    BareIs(stem + ".weight_scale");
    assert "fp8/" + stem + ".weight" == Prefixed(stem + ".weight");
    assert "fp8/" + stem + ".weight_scale" == Prefixed(stem + ".weight_scale");
    SuffixOf(stem, ".weight");
    SuffixOf(stem, ".weight_scale");
    if EndsWith(stem + ".weight", ".weight_scale") {
      LastOfSuffix(stem + ".weight", ".weight_scale");
    }
  }

  lemma BareIs(bare: string)
    ensures PREFIX <= Prefixed(bare) && Bare(Prefixed(bare)) == bare
  {
  }

  lemma SuffixOf(stem: string, suffix: string)
    ensures EndsWith(stem + suffix, suffix)
  {
  }

  lemma LastOfSuffix(s: string, suffix: string)
    requires s != [] && suffix != [] && EndsWith(s, suffix)
    ensures s[|s| - 1] == suffix[|suffix| - 1]
  {
    assert s[|s| - |suffix|..][|suffix| - 1] == s[|s| - 1];
  }

  lemma RenamedOnly(name: string, info: Info)
    requires Renamed(name, info).Some?
    ensures exists stem :: name == "fp8/" + stem + ".weight" || name == "fp8/" + stem + ".weight_scale"
  {
    var bare := Bare(name);
    var suffix := if EndsWith(bare, ".weight_scale") then ".weight_scale" else ".weight";
    var stem := bare[..|bare| - |suffix|];
    assert bare == stem + suffix;
    assert name == PREFIX + bare;
    assert name == "fp8/" + stem + suffix;
  }

  /** The first `i` names stand under their bare names, and nothing else does. */
  ghost predicate RenamedUpTo(header: Header, order: seq<string>, i: nat, out: Header)
    requires i <= |order| && forall name :: name in order ==> name in header
  {
    && (forall k :: 0 <= k < i ==> Carries(order[k], header[order[k]], out))
    && forall bare {:trigger Prefixed(bare)} :: bare in out ==> Prefixed(bare) in header
  }

  lemma RenameNext(header: Header, order: seq<string>, i: nat, out: Header, info: Info)
    requires SortedNames(header, order) && i < |order| && RenamedUpTo(header, order, i, out)
    requires Renamed(order[i], header[order[i]]) == Some(info)
    ensures RenamedUpTo(header, order, i + 1, out[Bare(order[i]) := info])
  {
    var name := order[i];
    var next := out[Bare(name) := info];
    forall k | 0 <= k < i + 1
      ensures Carries(order[k], header[order[k]], next)
    {
      if k < i {
        CarriesOther(order[k], header[order[k]], out, name, info);
      }
    }
    BareInjective(name, name);
  }

  lemma RenamedEvery(header: Header, order: seq<string>, out: Header)
    requires SortedNames(header, order) && RenamedUpTo(header, order, |order|, out)
    ensures RenamesAll(header, out) && forall name :: name in header ==> Renamed(name, header[name]).Some?
  {
    forall name | name in header
      ensures Carries(name, header[name], out)
    {
      var k :| 0 <= k < |order| && order[k] == name;
      assert Carries(order[k], header[order[k]], out);
    }
  }

  method RenameAll(header: Header, order: seq<string>) returns (renamed: Option<Header>)
    requires SortedNames(header, order)
    ensures renamed.Some? <==> forall name :: name in header ==> Renamed(name, header[name]).Some?
    ensures renamed.Some? ==> RenamesAll(header, renamed.value)
  {
    var out: Header := map[];
    for i := 0 to |order|
      invariant RenamedUpTo(header, order, i, out)
    {
      var name := order[i];
      var info := Renamed(name, header[name]);
      if info.None? {
        assert name in header;
        return None;
      }
      RenameNext(header, order, i, out, info.value);
      out := out[Bare(name) := info.value];
    }
    RenamedEvery(header, order, out);
    renamed := Some(out);
  }

  ghost function Span(header: Header, order: seq<string>): nat
    requires SortedNames(header, order) && Contiguous(header, order)
  {
    header[order[|order| - 1]].end
  }

  /** The file behind the header of `source`, whose blob takes `n` bytes. */
  function Region(source: Bytes, n: nat, span: nat): Bytes
    requires span == 0 || 8 + n + span <= |source|
  {
    if span == 0 then [] else source[8 + n..8 + n + span]
  }

  /** `file` is the data region of `source` behind the header `renamed`. */
  ghost predicate IsRewrite(json: Json, source: Bytes, n: nat, span: nat, renamed: Header, file: Bytes) {
    && |Padded(json, renamed)| < Capacity(8)
    && (span == 0 || 8 + n + span <= |source|)
    && file == LittleEndian(|Padded(json, renamed)|, 8) + Padded(json, renamed) + Region(source, n, span)
  }

  method CopyBehind(json: Json, source: Bytes, n: nat, span: nat, renamed: Header) returns (file: Result<Bytes>)
    ensures file.Success? <==> |Padded(json, renamed)| < Capacity(8) && (span == 0 || 8 + n + span <= |source|)
    ensures file.Success? ==> IsRewrite(json, source, n, span, renamed, file.value)
  {
    var blob := Padded(json, renamed);
    if |blob| >= Capacity(8) {
      return Failure("header too long");
    }
    var copied := CopyRange(source, LittleEndian(|blob|, 8) + blob, 8 + n, span, 0x400_0000);
    file := if copied.Some? then Success(copied.value) else Failure("short read");
  }

  /** Rewrites the header under the bare names and copies the data region once. */
  method WriteFp8Shard(json: Json, source: Bytes, n: nat, header: Header, order: seq<string>)
    returns (file: Result<Bytes>, renamed: Header)
    requires ParseHead(json, source) == Some((n, header)) && SortedNames(header, order)
    ensures file.Success? <==>
              && Contiguous(header, order)
              && (forall name :: name in header ==> Renamed(name, header[name]).Some?)
              && |Padded(json, renamed)| < Capacity(8)
              && (Span(header, order) == 0 || 8 + n + Span(header, order) <= |source|)
    ensures file.Success? ==>
              && Contiguous(header, order)
              && RenamesAll(header, renamed)
              && IsRewrite(json, source, n, Span(header, order), renamed, file.value)
  {
    renamed := map[];
    var ok := IsContiguous(header, order);
    if !ok {
      file := Failure("data region is not contiguous from 0");
      return;
    }
    var bare := RenameAll(header, order);
    if bare.None? {
      file := Failure("unexpected twin tensor");
      return;
    }
    renamed := bare.value;
    file := CopyBehind(json, source, n, header[order[|order| - 1]].end, renamed);
  }

  lemma {:induction false} EndsBelowSpan(header: Header, order: seq<string>, i: nat)
    requires SortedNames(header, order) && Contiguous(header, order) && i < |order|
    requires forall name :: name in header ==> header[name].start <= header[name].end
    ensures header[order[i]].end <= header[order[|order| - 1]].end
    decreases |order| - i
  {
    if i < |order| - 1 {
      EndsBelowSpan(header, order, i + 1);
      assert order[i + 1] in header;
    }
  }

  lemma SameSlice(head: Bytes, source: Bytes, base: nat, span: nat, a: nat, b: nat)
    requires a <= b <= span && base + span <= |source|
    ensures (head + source[base..base + span])[|head| + a..|head| + b] == source[base + a..base + b]
  {
    var region := source[base..base + span];
    assert (head + region)[|head| + a..|head| + b] == region[a..b];
    assert forall i :: 0 <= i < b - a ==> region[a..b][i] == region[a + i] == source[base + (a + i)];
  }

  /** A record inside the data region reads the same bytes from the rewritten file. */
  lemma RewriteKeepsSlice(json: Json, source: Bytes, n: nat, span: nat, renamed: Header, file: Bytes, info: Info)
    requires IsRewrite(json, source, n, span, renamed, file) && 8 + n <= |source|
    requires info.start <= info.end <= span
    ensures var base := 8 + |Padded(json, renamed)|;
            base + info.end <= |file| && 8 + n + info.end <= |source| &&
            file[base + info.start..base + info.end] == source[8 + n + info.start..8 + n + info.end]
  {
    var head := LittleEndian(|Padded(json, renamed)|, 8) + Padded(json, renamed);
    assert |head| == 8 + |Padded(json, renamed)| && file == head + Region(source, n, span);
    RegionSlice(head, source, n, span, info.start, info.end);
  }

  lemma RegionSlice(head: Bytes, source: Bytes, n: nat, span: nat, a: nat, b: nat)
    requires a <= b <= span && 8 + n <= |source| && (span == 0 || 8 + n + span <= |source|)
    ensures var file := head + Region(source, n, span);
            |head| + b <= |file| && 8 + n + b <= |source| &&
            file[|head| + a..|head| + b] == source[8 + n + a..8 + n + b]
  {
    if span > 0 {
      SameSlice(head, source, 8 + n, span, a, b);
    }
  }

  /** A carried record keeps its byte range. */
  lemma CarriedRange(header: Header, renamed: Header, bare: string)
    requires RenamesAll(header, renamed)
    ensures bare in renamed <==> Prefixed(bare) in header
    ensures bare in renamed ==>
              renamed[bare].start == header[Prefixed(bare)].start && renamed[bare].end == header[Prefixed(bare)].end
  {
    var name := Prefixed(bare);
    assert PREFIX <= name && Bare(name) == bare;
    if name in header {
      assert Carries(name, header[name], renamed);
    }
  }

  lemma RangeInSpan(header: Header, order: seq<string>, name: string)
    requires SortedNames(header, order) && Contiguous(header, order) && name in header
    requires forall x :: x in header ==> header[x].start <= header[x].end
    ensures header[name].start <= header[name].end <= Span(header, order)
  {
    var i :| 0 <= i < |order| && order[i] == name;
    EndsBelowSpan(header, order, i);
  }

  lemma RewriteHead(json: Json, source: Bytes, n: nat, span: nat, renamed: Header, file: Bytes)
    requires RoundTrips(json) && IsRewrite(json, source, n, span, renamed, file)
    ensures ParseHead(json, file) == Some((|Padded(json, renamed)|, renamed))
  {
    HeadRoundTrip(json, renamed, Region(source, n, span));
  }

  /** What a read returns depends only on the record's presence, its range and the bytes there. */
  lemma ReadsAlike(f: Bytes, k: nat, renamed: Header, x: string, g: Bytes, n: nat, header: Header, y: string)
    requires x in renamed <==> y in header
    requires x in renamed ==>
               var a, b := renamed[x].start, renamed[x].end;
               && a == header[y].start <= b == header[y].end
               && 8 + k + b <= |f| && 8 + n + b <= |g|
               && f[8 + k + a..8 + k + b] == g[8 + n + a..8 + n + b]
    ensures ReadUnder(Some((k, renamed)), f, x) == ReadUnder(Some((n, header)), g, y)
  {
  }

  /** The renamed record `bare` is present and placed as the exported record is, within the data region. */
  ghost predicate Placed(header: Header, renamed: Header, span: nat, bare: string) {
    && (bare in renamed <==> Prefixed(bare) in header)
    && (bare in renamed ==>
          var info := header[Prefixed(bare)];
          renamed[bare].start == info.start <= renamed[bare].end == info.end <= span)
  }

  lemma CarriedPlaced(header: Header, order: seq<string>, renamed: Header, bare: string)
    requires SortedNames(header, order) && Contiguous(header, order) && RenamesAll(header, renamed)
    requires forall name :: name in header ==> header[name].start <= header[name].end
    ensures Placed(header, renamed, Span(header, order), bare)
  {
    CarriedRange(header, renamed, bare);
    if Prefixed(bare) in header {
      RangeInSpan(header, order, Prefixed(bare));
    }
  }

  lemma RewriteKeepsRecord(json: Json, source: Bytes, n: nat, header: Header, span: nat,
                           renamed: Header, file: Bytes, bare: string)
    requires 8 + n <= |source| && IsRewrite(json, source, n, span, renamed, file)
    requires Placed(header, renamed, span, bare)
    ensures ReadUnder(Some((|Padded(json, renamed)|, renamed)), file, bare) ==
            ReadUnder(Some((n, header)), source, Prefixed(bare))
  {
    if bare in renamed {
      RewriteKeepsSlice(json, source, n, span, renamed, file, header[Prefixed(bare)]);
    }
    ReadsAlike(file, |Padded(json, renamed)|, renamed, bare, source, n, header, Prefixed(bare));
  }

  /** Every tensor of the export reads back, under its bare name and no other, with the same bytes. */
  lemma RewriteKeepsTensors(json: Json, source: Bytes, n: nat, header: Header, order: seq<string>,
                            renamed: Header, file: Bytes, bare: string)
    requires RoundTrips(json) && ParseHead(json, source) == Some((n, header)) && 8 + n <= |source|
    requires SortedNames(header, order) && Contiguous(header, order) && RenamesAll(header, renamed)
    requires forall name :: name in header ==> header[name].start <= header[name].end
    requires IsRewrite(json, source, n, Span(header, order), renamed, file)
    ensures ReadTensor(json, file, bare) == ReadTensor(json, source, Prefixed(bare))
  {
    CarriedPlaced(header, order, renamed, bare);
    RewriteKeepsRecord(json, source, n, header, Span(header, order), renamed, file, bare);
    RewriteHead(json, source, n, Span(header, order), renamed, file);
  }

  /** The shape holds as many elements, `width` bytes each, as the record has bytes. */
  predicate ShapeFits(info: Info, width: nat) {
    info.start <= info.end && info.end - info.start == Elements(info.shape) * width
  }

  lemma ColumnFits(n: nat)
    ensures Elements([n, 1]) == n
  {
    assert [n, 1][1..] == [1];
  }

  /** What the written header says of a tensor of the export: a scale of n values stands as a column of n rows, a
      weight with its own shape, both of the same type and bytes; shapes that fit their bytes still do. */
  lemma RewriteDeclares(json: Json, source: Bytes, n: nat, header: Header, span: nat, renamed: Header, file: Bytes,
                        stem: string, width: nat)
    requires RoundTrips(json) && RenamesAll(header, renamed) && IsRewrite(json, source, n, span, renamed, file)
    ensures var head := ParseHead(json, file);
            var weight, scale := stem + ".weight", stem + ".weight_scale";
            && head.Some?
            && ("fp8/" + weight in header ==>
                  weight in head.value.1 && head.value.1[weight] == header["fp8/" + weight])
            && ("fp8/" + scale in header ==>
                  && |header["fp8/" + scale].shape| == 1
                  && scale in head.value.1
                  && head.value.1[scale]
                     == header["fp8/" + scale].(shape := [header["fp8/" + scale].shape[0], 1])
                  && (ShapeFits(head.value.1[scale], width) <==> ShapeFits(header["fp8/" + scale], width)))
  {
    RewriteHead(json, source, n, span, renamed, file);
    var weight, scale := stem + ".weight", stem + ".weight_scale";
    if "fp8/" + weight in header {
      CarriedWeight(header, renamed, stem);
    }
    if "fp8/" + scale in header {
      CarriedScale(header, renamed, stem, width);
    }
  }

  lemma CarriedWeight(header: Header, renamed: Header, stem: string)
    requires RenamesAll(header, renamed) && "fp8/" + (stem + ".weight") in header
    ensures stem + ".weight" in renamed && renamed[stem + ".weight"] == header["fp8/" + (stem + ".weight")]
  {
    var bare := stem + ".weight";
    var name := Prefixed(bare);
    BareIs(bare);
    assert name == "fp8/" + stem + ".weight";
    RenamedIff(stem, header[name]);
    assert Carries(name, header[name], renamed);
  }

  lemma CarriedScale(header: Header, renamed: Header, stem: string, width: nat)
    requires RenamesAll(header, renamed) && "fp8/" + (stem + ".weight_scale") in header
    ensures var bare := stem + ".weight_scale";
            var info := header["fp8/" + bare];
            && |info.shape| == 1 && bare in renamed && renamed[bare] == info.(shape := [info.shape[0], 1])
            && (ShapeFits(renamed[bare], width) <==> ShapeFits(info, width))
  {
    var bare := stem + ".weight_scale";
    var name := Prefixed(bare);
    BareIs(bare);
    assert name == "fp8/" + stem + ".weight_scale";
    RenamedIff(stem, header[name]);
    assert Carries(name, header[name], renamed);
    ColumnFits(header[name].shape[0]);
  }
}
