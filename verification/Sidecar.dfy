/**
  `glm53_prep_quark.py`: the check that lets an interrupted run keep a per-layer sidecar.  The header's records,
  sorted by start offset, must follow one another from 0 to the end of the file.
 */
module Sidecar {
  import opened Common
  import opened Safetensors

  /** What a sidecar's tensor must be declared as. */
  datatype Spec = Spec(dtype: string, shape: seq<nat>)

  type Specs = map<string, Spec>

  /** The records in this order follow one another from 0 to `end`. */
  ghost predicate Tiles(header: Header, order: seq<string>, end: nat)
    requires forall name :: name in order ==> name in header
  {
    if order == [] then end == 0
    else
      var last := header[Last(order)];
      last.start <= last.end == end && Tiles(header, Init(order), last.start)
  }

  /** The records tile exactly `size` bytes. */
  ghost predicate Sized(header: Header, order: seq<string>, size: int)
    requires forall name :: name in order ==> name in header
  {
    size >= 0 && Tiles(header, order, size)
  }

  method TileEnd(header: Header, order: seq<string>) returns (end: Option<nat>)
    requires forall name :: name in order ==> name in header
    ensures end.None? ==> forall size: nat {:trigger Sized(header, order, size)} :: !Sized(header, order, size)
    ensures end.Some? ==> Tiles(header, order, end.value)
  {
    var at := 0;
    for i := 0 to |order|
      invariant Tiles(header, order[..i], at)
    {
      assert Init(order[..i + 1]) == order[..i] && Last(order[..i + 1]) == order[i];
      var record := header[order[i]];
      if record.start != at || record.end < record.start {
        NoTiling(header, order, i + 1, at);
        return None;
      }
      at := record.end;
    }
    assert order[..|order|] == order;
    assert Tiles(header, order, at);
    end := Some(at);
  }

  /** A record that does not follow the ones before it spoils every longer tiling. */
  lemma {:induction false} NoTiling(header: Header, order: seq<string>, n: nat, at: nat)
    requires 0 < n <= |order| && forall name :: name in order ==> name in header
    requires Tiles(header, order[..n - 1], at)
    requires header[order[n - 1]].start != at || header[order[n - 1]].end < header[order[n - 1]].start
    ensures forall size: nat {:trigger Sized(header, order, size)} :: !Sized(header, order, size)
    decreases |order|
  {
    var init := Init(order);
    if n < |order| {
      assert init[..n - 1] == order[..n - 1];
      NoTiling(header, init, n, at);
      assert !Sized(header, init, header[Last(order)].start);
    } else {
      assert init == order[..n - 1];
      assert Tiles(header, init, header[Last(order)].start) ==> header[Last(order)].start == at;
    }
  }

  /** The header declares exactly the wanted tensors. */
  predicate Declared(header: Header, specs: Specs) {
    && header.Keys == specs.Keys
    && forall name :: name in specs ==> specs[name] == Spec(header[name].dtype, header[name].shape)
  }

  /** The sidecar is kept: it parses, tiles, has exactly the size it declares, and declares exactly `specs`. */
  ghost predicate Valid(json: Json, file: Bytes, order: seq<string>, specs: Specs) {
    var head := ParseHead(json, file);
    && head.Some?
    && SortedNames(head.value.1, order)
    && Sized(head.value.1, order, |file| - 8 - head.value.0)
    && Declared(head.value.1, specs)
  }

  /** `order` is the stable sort of the parsed records by start offset; records of one start are in the order of
      the header's text. */
  method ValidSidecar(json: Json, file: Bytes, order: seq<string>, specs: Specs) returns (ok: bool)
    requires ParseHead(json, file).Some? ==> SortedNames(ParseHead(json, file).value.1, order)
    ensures ok <==> Valid(json, file, order, specs)
  {
    var head := ParseHead(json, file);
    if head.None? {
      return false;
    }
    var (n, header) := head.value;
    var end := TileEnd(header, order);
    ghost var size := |file| - 8 - n;
    assert end.None? ==> !Sized(header, order, size);
    if end.None? {
      return false;
    }
    ok := |file| == 8 + n + end.value && Declared(header, specs);
  }

  // --- what an accepted sidecar is -----------------------------------------

  predicate Holds(header: Header, name: string, p: nat) {
    name in header && header[name].start <= p < header[name].end
  }

  /** In a tiling every data byte belongs to a record. */
  lemma {:induction false} EveryByteHeld(header: Header, order: seq<string>, end: nat, p: nat)
    requires forall name :: name in order ==> name in header
    requires Tiles(header, order, end) && p < end
    ensures exists name :: name in order && Holds(header, name, p)
  {
    if p >= header[Last(order)].start {
      assert Holds(header, Last(order), p);
    } else {
      EveryByteHeld(header, Init(order), header[Last(order)].start, p);
    }
  }

  lemma {:induction false} EndsBelow(header: Header, order: seq<string>, end: nat, name: string)
    requires forall x :: x in order ==> x in header
    requires Tiles(header, order, end) && name in order
    ensures header[name].start <= header[name].end <= end
  {
    assert order == Init(order) + [Last(order)];
    if name != Last(order) {
      EndsBelow(header, Init(order), header[Last(order)].start, name);
    }
  }

  /** ... and to no other. */
  lemma {:induction false} HeldOnce(header: Header, order: seq<string>, end: nat, p: nat, a: string, b: string)
    requires forall name :: name in order ==> name in header
    requires Tiles(header, order, end) && a in order && b in order && Holds(header, a, p) && Holds(header, b, p)
    ensures a == b
  {
    var last, init := Last(order), Init(order);
    assert order == init + [last];
    if a != last && b != last {
      HeldOnce(header, init, header[last].start, p, a, b);
    } else if a != last {
      EndsBelow(header, init, header[last].start, a);
    } else if b != last {
      EndsBelow(header, init, header[last].start, b);
    }
  }

  /** Byte `p` of the data belongs to `name`, and to no other wanted tensor. */
  ghost predicate OwnedBy(header: Header, specs: Specs, p: nat, name: string) {
    && name in specs && Holds(header, name, p)
    && forall other :: other in specs && Holds(header, other, p) ==> other == name
  }

  ghost predicate Owned(header: Header, specs: Specs, p: nat) {
    exists name :: OwnedBy(header, specs, p, name)
  }

  /** An accepted sidecar has all its data, and every byte of it belongs to exactly one of the wanted tensors. */
  lemma ValidPartitions(json: Json, file: Bytes, order: seq<string>, specs: Specs)
    requires Valid(json, file, order, specs)
    ensures Complete(json, file)
    ensures var (n, header) := ParseHead(json, file).value;
            forall p: nat :: 8 + n + p < |file| ==> Owned(header, specs, p)
  {
    var (n, header) := ParseHead(json, file).value;
    var e := |file| - 8 - n;
    TilingIsDataEnd(header, order, e);
    forall p: nat | 8 + n + p < |file|
      ensures Owned(header, specs, p)
    {
      EveryByteHeld(header, order, e, p);
      var name :| name in order && Holds(header, name, p);
      forall other | other in specs && Holds(header, other, p)
        ensures other == name
      {
        HeldOnce(header, order, e, p, name, other);
      }
      assert OwnedBy(header, specs, p, name);
    }
  }

  lemma TilingIsDataEnd(header: Header, order: seq<string>, end: nat)
    requires SortedNames(header, order) && Tiles(header, order, end)
    ensures IsDataEnd(header, end)
  {
    forall name | name in header
      ensures header[name].end <= end
    {
      EndsBelow(header, order, end, name);
    }
    if order != [] {
      assert Last(order) in order;
    }
  }

  // --- the choice of listing ------------------------------------------------

  /** No record is empty, so none that tiles shares its start with another. */
  ghost predicate NoneEmpty(header: Header) {
    forall name :: name in header ==> header[name].start != header[name].end
  }

  function StartIn(header: Header): string -> nat {
    name => if name in header then header[name].start else 0
  }

  ghost predicate Rising(key: string -> nat, s: seq<string>) {
    forall i, j :: 0 <= i < j < |s| ==> key(s[i]) < key(s[j])
  }

  ghost predicate Sorted(key: string -> nat, s: seq<string>) {
    forall i, j :: 0 <= i < j < |s| ==> key(s[i]) <= key(s[j])
  }

  lemma {:induction false} TilingRises(header: Header, order: seq<string>, end: nat)
    requires forall name :: name in order ==> name in header
    requires NoneEmpty(header) && Tiles(header, order, end)
    ensures Rising(StartIn(header), order)
  {
    if order != [] {
      var init, last := Init(order), Last(order);
      assert order == init + [last];
      TilingRises(header, init, header[last].start);
      forall i | 0 <= i < |init|
        ensures header[order[i]].start < header[last].start
      {
        assert order[i] == init[i];
        EndsBelow(header, init, header[last].start, init[i]);
      }
    }
  }

  ghost predicate SameElements(a: seq<string>, b: seq<string>) {
    forall x :: x in a <==> x in b
  }

  /** Names with rising keys are listed by key in one way only. */
  lemma {:induction false} ListedOneWay(key: string -> nat, a: seq<string>, b: seq<string>)
    requires Rising(key, a) && Sorted(key, b) && Distinct(b) && SameElements(a, b)
    ensures a == b
  {
    if a == [] {
      if b != [] {
        HasElement(b);
      }
    } else {
      HasElement(a);
      SameLast(key, a, b);
      WithoutLast(a, b);
      ListedOneWay(key, Init(a), Init(b));
      assert a == Init(a) + [Last(a)] && b == Init(b) + [Last(b)];
    }
  }

  lemma HasElement(s: seq<string>)
    requires s != []
    ensures exists x :: x in s
  {
    assert s[0] in s;
  }

  lemma WithoutLast(a: seq<string>, b: seq<string>)
    requires a != [] && b != [] && Distinct(a) && Distinct(b) && SameElements(a, b) && Last(a) == Last(b)
    ensures SameElements(Init(a), Init(b))
  {
    forall x
      ensures x in Init(a) <==> x in Init(b)
    {
      OnlyLast(a, x);
      OnlyLast(b, x);
    }
  }

  lemma OnlyLast(s: seq<string>, name: string)
    requires s != [] && Distinct(s)
    ensures name in Init(s) <==> name in s && name != Last(s)
  {
    assert s == Init(s) + [Last(s)];
  }

  lemma SameLast(key: string -> nat, a: seq<string>, b: seq<string>)
    requires a != [] && Rising(key, a) && Sorted(key, b) && SameElements(a, b)
    ensures b != [] && Last(a) == Last(b) && Distinct(a)
  {
    assert Last(a) in a;
    var k :| 0 <= k < |b| && b[k] == Last(a);
    assert Last(b) in b;
    var m :| 0 <= m < |a| && a[m] == Last(b);
  }

  /** Without empty records the verdict does not depend on how equal starts are listed. */
  lemma VerdictOfAnyListing(json: Json, file: Bytes, order: seq<string>, order2: seq<string>, specs: Specs)
    requires ParseHead(json, file).Some? && NoneEmpty(ParseHead(json, file).value.1)
    requires SortedNames(ParseHead(json, file).value.1, order) && SortedNames(ParseHead(json, file).value.1, order2)
    ensures Valid(json, file, order, specs) <==> Valid(json, file, order2, specs)
  {
    var (n, header) := ParseHead(json, file).value;
    if Valid(json, file, order, specs) {
      TilingRises(header, order, |file| - 8 - n);
      ListedOneWay(StartIn(header), order, order2);
    } else if Valid(json, file, order2, specs) {
      TilingRises(header, order2, |file| - 8 - n);
      ListedOneWay(StartIn(header), order2, order);
    }
  }

  /** With one it can: an empty record listed after the record that starts where it does breaks the tiling. */
  lemma EmptyRecordMisplaced()
    ensures var header := map["a" := Info("U8", [4], 0, 4), "b" := Info("U8", [0], 0, 0)];
            && SortedNames(header, ["b", "a"]) && Tiles(header, ["b", "a"], 4)
            && SortedNames(header, ["a", "b"]) && !Tiles(header, ["a", "b"], 4)
  {
    var header := map["a" := Info("U8", [4], 0, 4), "b" := Info("U8", [0], 0, 0)];
    assert Init(["b", "a"]) == ["b"] && Init(["b"]) == [] && Init(["a", "b"]) == ["a"];
    assert "a" != "b";
  }

  // --- resuming -------------------------------------------------------------

  function NamesOf(entries: seq<Entry>): seq<string> {
    seq(|entries|, i requires 0 <= i < |entries| => entries[i].name)
  }

  function SpecsOf(entries: seq<Entry>): Specs {
    var header := HeaderOf(entries);
    map name | name in header :: Spec(header[name].dtype, header[name].shape)
  }

  lemma {:induction false} NamesListed(entries: seq<Entry>, name: string)
    ensures name in HeaderOf(entries) <==> name in NamesOf(entries)
  {
    if entries != [] {
      NamesListed(Init(entries), name);
      assert NamesOf(entries) == NamesOf(Init(entries)) + [Last(entries).name];
    }
  }

  lemma {:induction false} WrittenTiles(entries: seq<Entry>, n: nat)
    requires DistinctNames(entries) && n <= |entries|
    requires forall name :: name in NamesOf(entries) ==> name in HeaderOf(entries)
    ensures Tiles(HeaderOf(entries), NamesOf(entries)[..n], TotalBytes(entries[..n]))
  {
    if n > 0 {
      var names := NamesOf(entries);
      WrittenTiles(entries, n - 1);
      OffsetsTile(entries, n - 1);
      assert Init(names[..n]) == names[..n - 1] && Last(names[..n]) == names[n - 1];
    } else {
      assert entries[..0] == [];
    }
  }

  lemma {:induction false} PrefixNotLonger(entries: seq<Entry>, i: nat, j: nat)
    requires i <= j <= |entries|
    ensures TotalBytes(entries[..i]) <= TotalBytes(entries[..j])
    decreases j - i
  {
    if i < j {
      PrefixNotLonger(entries, i, j - 1);
      assert Init(entries[..j]) == entries[..j - 1];
    }
  }

  /** The order of registration is an order by start offset, and where starts are equal that of the header's text. */
  lemma WrittenSorted(entries: seq<Entry>)
    requires DistinctNames(entries)
    ensures SortedNames(HeaderOf(entries), NamesOf(entries))
  {
    var header, names := HeaderOf(entries), NamesOf(entries);
    forall name
      ensures name in names <==> name in header
    {
      NamesListed(entries, name);
    }
    forall i, j | 0 <= i < j < |names|
      ensures header[names[i]].start <= header[names[j]].start
    {
      OffsetsTile(entries, i);
      OffsetsTile(entries, j);
      PrefixNotLonger(entries, i, j);
    }
  }

  lemma WholeIsValid(json: Json, entries: seq<Entry>)
    requires RoundTrips(json) && Honest(entries) && DistinctNames(entries)
    requires |Padded(json, HeaderOf(entries))| < Capacity(8)
    ensures Valid(json, FileOf(json, entries), NamesOf(entries), SpecsOf(entries))
  {
    var names, header := NamesOf(entries), HeaderOf(entries);
    HeadRoundTrip(json, header, AllData(entries));
    WrittenSorted(entries);
    WrittenTiles(entries, |entries|);
    assert entries[..|entries|] == entries && names[..|entries|] == names;
    assert Tiles(header, names, TotalBytes(entries));
    DataLength(entries);
  }

  /** Of all the prefixes an interrupted flush can leave behind, the check keeps the whole file and no other. */
  lemma ValidIffWhole(json: Json, entries: seq<Entry>, k: nat)
    requires RoundTrips(json) && Honest(entries) && DistinctNames(entries)
    requires |Padded(json, HeaderOf(entries))| < Capacity(8) && k <= |FileOf(json, entries)|
    ensures Valid(json, FileOf(json, entries)[..k], NamesOf(entries), SpecsOf(entries)) <==>
            k == |FileOf(json, entries)|
  {
    if k == |FileOf(json, entries)| {
      assert FileOf(json, entries)[..k] == FileOf(json, entries);
      WholeIsValid(json, entries);
    } else if Valid(json, FileOf(json, entries)[..k], NamesOf(entries), SpecsOf(entries)) {
      ValidPartitions(json, FileOf(json, entries)[..k], NamesOf(entries), SpecsOf(entries));
      FlushedComplete(json, entries, k);
    }
  }
}
