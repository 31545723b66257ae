/**
  `gemma4_dspark_rekey.py` and `gemma4_mtp_rekey.py`: splitting a projection of concatenated inputs into one
  projection per input, on the bytes of its row-major bf16 rows, and the names and sizes the split is
  published under.
 */
module ColumnSplit {
  import opened Common
  import opened Bf16
  import opened LinearMaps
  import opened Safetensors

  // --- the byte slices ----------------------------------------------------

  /** Part `j` of row `r`, for rows of `row` bytes cut into parts of `part` bytes. */
  function Part(data: Bytes, row: nat, part: nat, j: nat, r: nat): Bytes {
    Slice(data, Times(r, row) + Times(j, part), Times(r, row) + Times(j + 1, part))
  }

  /** Part `j` of the first `m` rows, joined. */
  function Block(data: Bytes, row: nat, part: nat, j: nat, m: nat): Bytes {
    if m == 0 then [] else Block(data, row, part, j, m - 1) + Part(data, row, part, j, m - 1)
  }

  method SplitColumns(data: Bytes, rows: nat, row: nat, part: nat, j: nat) returns (out: Bytes)
    ensures out == Block(data, row, part, j, rows)
  {
    out := [];
    for r := 0 to rows
      invariant out == Block(data, row, part, j, r)
    {
      out := out + Slice(data, Times(r, row) + Times(j, part), Times(r, row) + Times(j + 1, part));
    }
  }

  lemma PartBytes(data: Bytes, row: nat, part: nat, j: nat, r: nat)
    requires r * row + j * part + part <= |data|
    ensures |Part(data, row, part, j, r)| == part
    ensures forall x: nat :: x < part ==> Part(data, row, part, j, r)[x] == data[r * row + j * part + x]
  {
    assert (j + 1) * part == j * part + part;
  }

  lemma {:induction false} BlockLength(data: Bytes, row: nat, part: nat, j: nat, m: nat)
    requires forall i: nat :: i < m ==> |Part(data, row, part, j, i)| == part
    ensures |Block(data, row, part, j, m)| == m * part
  {
    if m > 0 {
      BlockLength(data, row, part, j, m - 1);
      assert m * part == (m - 1) * part + part;
    }
  }

  /** Row `r` of the block starts where the block of the rows before it ends. */
  lemma {:induction false} BlockRow(data: Bytes, row: nat, part: nat, j: nat, m: nat, r: nat)
    requires r < m
    ensures Block(data, row, part, j, r) + Part(data, row, part, j, r) <= Block(data, row, part, j, m)
  {
    if r < m - 1 {
      BlockRow(data, row, part, j, m - 1, r);
    }
  }

  lemma BlockByte(data: Bytes, row: nat, part: nat, j: nat, m: nat, r: nat, x: nat, i: nat, i2: nat)
    requires forall i: nat :: i < m ==> |Part(data, row, part, j, i)| == part
    requires r < m && x < part && i == r * part + x && i2 == r * row + j * part + x
    requires r * row + j * part + part <= |data|
    ensures i < |Block(data, row, part, j, m)| && i2 < |data| && Block(data, row, part, j, m)[i] == data[i2]
  {
    BlockRow(data, row, part, j, m, r);
    BlockLength(data, row, part, j, r);
    PartBytes(data, row, part, j, r);
    PrefixByte(Block(data, row, part, j, r), Part(data, row, part, j, r), Block(data, row, part, j, m), x);
  }

  lemma PrefixByte(head: Bytes, own: Bytes, whole: Bytes, x: nat)
    requires head + own <= whole && x < |own|
    ensures |head| + x < |whole| && whole[|head| + x] == own[x]
  {
    assert (head + own)[|head| + x] == own[x];
  }

  // --- the map ------------------------------------------------------------

  lemma RowsHaveParts(data: Bytes, rows: nat, n: nat, w: nat, j: nat, r: nat)
    requires |data| == 2 * (rows * (n * w)) && j < n && r < rows
    ensures r * (2 * (n * w)) + j * (2 * w) + 2 * w <= |data|
  {
    MulMonotone(r + 1, rows, n * w);
    MulMonotone(j + 1, n, w);
    assert (r + 1) * (n * w) == r * (n * w) + n * w && (j + 1) * w == j * w + w;
    assert r * (2 * (n * w)) == 2 * (r * (n * w)) && j * (2 * w) == 2 * (j * w);
  }

  /** The bf16 elements of `data` as a matrix of `cols` columns, read by `value`. */
  function Decoded(value: Bits16 -> real, data: Bytes, cols: nat): Matrix {
    (r, c) => ElementAt(value, data, r * cols + c)
  }

  function ElementAt(value: Bits16 -> real, data: Bytes, i: int): real {
    if 0 <= i && 2 * i + 1 < |data| then value(Le16(data, i)) else 0.0
  }

  /** Every row of a whole matrix has its part in full. */
  lemma PartsFull(data: Bytes, rows: nat, n: nat, w: nat, j: nat, row: nat, part: nat)
    requires |data| == 2 * (rows * (n * w)) && j < n && row == 2 * (n * w) && part == 2 * w
    ensures forall r: nat :: r < rows ==> |Part(data, row, part, j, r)| == part
  {
    forall r: nat | r < rows
      ensures |Part(data, row, part, j, r)| == part
    {
      RowsHaveParts(data, rows, n, w, j, r);
      PartBytes(data, row, part, j, r);
    }
  }

  /** Where the two bytes of an element begin, in its block and in the whole. */
  lemma BytePositions(n: nat, w: nat, j: nat, r: nat, c: nat)
    ensures 2 * (r * w + c) == r * (2 * w) + 2 * c
    ensures 2 * (r * (n * w) + (j * w + c)) == r * (2 * (n * w)) + j * (2 * w) + 2 * c
  {
    assert r * (2 * w) == 2 * (r * w) && j * (2 * w) == 2 * (j * w);
    assert r * (2 * (n * w)) == 2 * (r * (n * w));
  }

  lemma ElementOfBlock(value: Bits16 -> real, data: Bytes, row: nat, part: nat, j: nat, rows: nat, r: nat, c: nat,
                       i: nat, i2: nat)
    requires forall k: nat :: k < rows ==> |Part(data, row, part, j, k)| == part
    requires r < rows && 2 * c + 1 < part && r * row + j * part + part <= |data|
    requires 2 * i == r * part + 2 * c && 2 * i2 == r * row + j * part + 2 * c
    ensures ElementAt(value, Block(data, row, part, j, rows), i) == ElementAt(value, data, i2)
  {
    BlockByte(data, row, part, j, rows, r, 2 * c, 2 * i, 2 * i2);
    BlockByte(data, row, part, j, rows, r, 2 * c + 1, 2 * i + 1, 2 * i2 + 1);
    SameElement(value, Block(data, row, part, j, rows), data, i, i2);
  }

  /** Element (r, c) of block `j` is element (r, j*w + c) of the whole. */
  lemma BlockElement(value: Bits16 -> real, data: Bytes, rows: nat, n: nat, w: nat, j: nat, r: nat, c: nat)
    requires |data| == 2 * (rows * (n * w)) && j < n && r < rows && c < w
    ensures Decoded(value, Block(data, 2 * (n * w), 2 * w, j, rows), w)(r, c) ==
            Decoded(value, data, n * w)(r, j * w + c)
  {
    var cols := Times(n, w);
    PartsFull(data, rows, n, w, j, 2 * cols, 2 * w);
    RowsHaveParts(data, rows, n, w, j, r);
    BytePositions(n, w, j, r, c);
    ElementOfBlock(value, data, 2 * cols, 2 * w, j, rows, r, c, Times(r, w) + c, Times(r, cols) + (Times(j, w) + c));
  }

  lemma SameElement(value: Bits16 -> real, block: Bytes, data: Bytes, i: nat, i2: nat)
    requires 2 * i + 1 < |block| && 2 * i2 + 1 < |data|
    requires block[2 * i] == data[2 * i2] && block[2 * i + 1] == data[2 * i2 + 1]
    ensures ElementAt(value, block, i) == ElementAt(value, data, i2)
  {
  }

  /** The sum over the first `k` blocks, each applied to its own input. */
  function SplitApply(value: Bits16 -> real, data: Bytes, rows: nat, n: nat, w: nat, x: Vector, r: int, k: nat): real {
    if k == 0 then 0.0
    else
      SplitApply(value, data, rows, n, w, x, r, k - 1) +
      Dot(w, Row(Decoded(value, Block(data, 2 * (n * w), 2 * w, k - 1, rows), w), r), Tail(x, (k - 1) * w))
  }

  lemma OneBlock(value: Bits16 -> real, data: Bytes, rows: nat, n: nat, w: nat, x: Vector, r: nat, j: nat)
    requires |data| == 2 * (rows * (n * w)) && j < n && r < rows
    ensures Dot(w, Row(Decoded(value, Block(data, 2 * (n * w), 2 * w, j, rows), w), r), Tail(x, j * w)) ==
            Dot(w, Tail(Row(Decoded(value, data, n * w), r), j * w), Tail(x, j * w))
  {
    var block := Row(Decoded(value, Block(data, 2 * (n * w), 2 * w, j, rows), w), r);
    var columns := Tail(Row(Decoded(value, data, n * w), r), j * w);
    forall c | 0 <= c < w
      ensures block(c) == columns(c)
    {
      BlockElement(value, data, rows, n, w, j, r, c);
    }
    DotSame(w, block, Tail(x, j * w), columns, Tail(x, j * w));
  }

  lemma {:induction false} SplitIsBlockDots(value: Bits16 -> real, data: Bytes, rows: nat, n: nat, w: nat, x: Vector,
                                            r: nat, k: nat)
    requires |data| == 2 * (rows * (n * w)) && k <= n && r < rows
    ensures SplitApply(value, data, rows, n, w, x, r, k) == BlockDots(k, w, Row(Decoded(value, data, n * w), r), x)
  {
    if k > 0 {
      SplitIsBlockDots(value, data, rows, n, w, x, r, k - 1);
      OneBlock(value, data, rows, n, w, x, r, k - 1);
    }
  }

  /** For every row and block count: the blocks' outputs add up to the projection of the concatenated input. */
  lemma SplitPreservesMap(value: Bits16 -> real, data: Bytes, rows: nat, n: nat, w: nat, x: Vector, r: nat)
    requires |data| == 2 * (rows * (n * w)) && r < rows
    ensures n * w >= 0
    ensures SplitApply(value, data, rows, n, w, x, r, n) == Apply(Decoded(value, data, n * w), n * w, x)(r)
  {
    var row := Row(Decoded(value, data, n * w), r);
    assert SplitApply(value, data, rows, n, w, x, r, n) == BlockDots(n, w, row, x) by {
      SplitIsBlockDots(value, data, rows, n, w, x, r, n);
    }
    DotInBlocks(n, w, row, x);
  }

  /** The pre-projection's two halves are blocks 0 and 1 of two. */
  method SplitPreProjection(data: Bytes, rows: nat, cols: nat, backbone: nat) returns (halves: Result<(Bytes, Bytes)>)
    ensures halves.Success? <==> cols == 2 * backbone
    ensures halves.Success? ==>
              halves.value == (Block(data, 2 * (2 * backbone), 2 * backbone, 0, rows),
                               Block(data, 2 * (2 * backbone), 2 * backbone, 1, rows))
  {
    if cols != 2 * backbone {
      return Failure("unexpected pre_projection.weight shape");
    }
    var e := SplitColumns(data, rows, cols * 2, backbone * 2, 0);
    var h := SplitColumns(data, rows, cols * 2, backbone * 2, 1);
    halves := Success((e, h));
  }

  /** The two halves: e*W_e + h*W_h is the projection of the concatenation [e; h]. */
  lemma HalvesPreserveMap(value: Bits16 -> real, data: Bytes, rows: nat, backbone: nat, x: Vector, r: nat)
    requires |data| == 2 * (rows * (2 * backbone)) && r < rows
    ensures var row, part := 2 * (2 * backbone), 2 * backbone;
            Dot(backbone, Row(Decoded(value, Block(data, row, part, 0, rows), backbone), r), x) +
            Dot(backbone, Row(Decoded(value, Block(data, row, part, 1, rows), backbone), r), Tail(x, backbone)) ==
            Apply(Decoded(value, data, 2 * backbone), 2 * backbone, x)(r)
  {
    SplitPreservesMap(value, data, rows, 2, backbone, x, r);
    var row, part := 2 * (2 * backbone), 2 * backbone;
    var e := Row(Decoded(value, Block(data, row, part, 0, rows), backbone), r);
    DotSame(backbone, e, Tail(x, 0 * backbone), e, x);
    assert SplitApply(value, data, rows, 2, backbone, x, r, 2) == SplitApply(value, data, rows, 2, backbone, x, r, 1) +
      Dot(backbone, Row(Decoded(value, Block(data, row, part, 1, rows), backbone), r), Tail(x, 1 * backbone));
  }

  // --- names and sizes ----------------------------------------------------

  const FC := "fc.weight"

  function BlockName(j: nat): string { "fc." + Decimal(j) + ".weight" }

  lemma BlockNameInjective(i: nat, j: nat)
    requires BlockName(i) == BlockName(j)
    ensures i == j
  {
    var a, b := BlockName(i), BlockName(j);
    assert Decimal(i) == a[3..|a| - 7] && Decimal(j) == b[3..|b| - 7];
    DecimalInjective(i, j);
  }

  function BlockNames(taps: nat): seq<string> {
    if taps == 0 then [] else BlockNames(taps - 1) + [BlockName(taps - 1)]
  }

  /** The published names, less their common prefix, in order. */
  function OutNames(names: seq<string>, taps: nat): seq<string> {
    if names == [] then [] else Published(names[0], taps) + OutNames(names[1..], taps)
  }

  function Published(name: string, taps: nat): seq<string> {
    if name == FC then BlockNames(taps) else [name]
  }

  lemma {:induction false} InBlockNames(taps: nat, name: string)
    ensures name in BlockNames(taps) <==> exists j: nat :: j < taps && name == BlockName(j)
  {
    if taps > 0 {
      InBlockNames(taps - 1, name);
    }
  }

  lemma {:induction false} BlockNamesDistinct(taps: nat)
    ensures Distinct(BlockNames(taps)) && |BlockNames(taps)| == taps
    ensures forall j :: 0 <= j < taps ==> BlockNames(taps)[j] == BlockName(j)
  {
    if taps > 0 {
      BlockNamesDistinct(taps - 1);
      forall j | 0 <= j < taps - 1
        ensures BlockNames(taps)[j] != BlockName(taps - 1)
      {
        if BlockName(j) == BlockName(taps - 1) {
          BlockNameInjective(j, taps - 1);
        }
      }
    }
  }

  lemma {:induction false} InOutNames(names: seq<string>, taps: nat, name: string)
    ensures name in OutNames(names, taps) <==>
              (name in names && name != FC) || (FC in names && name in BlockNames(taps))
  {
    if names != [] {
      InOutNames(names[1..], taps, name);
      assert names == [names[0]] + names[1..];
    }
  }

  lemma DistinctParts<T>(a: seq<T>, b: seq<T>)
    requires Distinct(a + b)
    ensures Distinct(a) && Distinct(b) && forall x :: x in a ==> x !in b
  {
    var s := a + b;
    assert forall i :: 0 <= i < |a| ==> s[i] == a[i];
    assert forall j :: 0 <= j < |b| ==> b[j] == s[|a| + j];
    forall x | x in a
      ensures x !in b
    {
      var i :| 0 <= i < |a| && a[i] == x;
      forall j | 0 <= j < |b|
        ensures b[j] != x
      {
        assert s[i] != s[|a| + j];
      }
    }
  }

  lemma DistinctConcat<T>(a: seq<T>, b: seq<T>)
    ensures Distinct(a + b) <==> Distinct(a) && Distinct(b) && forall x :: x in a ==> x !in b
  {
    if Distinct(a + b) {
      DistinctParts(a, b);
    } else {
      var i, j :| 0 <= i < j < |a + b| && (a + b)[i] == (a + b)[j];
      if i < |a| <= j {
        assert a[i] in a && b[j - |a|] in b;
      } else if |a| <= i {
        assert b[i - |a|] == b[j - |a|];
      } else {
        assert a[i] == a[j];
      }
    }
  }

  /** No source tensor is already named like one of the blocks. */
  ghost predicate NoBlockName(names: seq<string>, taps: nat) {
    forall j: nat :: j < taps ==> BlockName(j) !in names
  }

  /** A checkpoint that already has a tensor `fc.0.weight` publishes that name twice. */
  lemma BlockNameTaken()
    ensures Distinct([BlockName(0), FC]) && !Distinct(OutNames([BlockName(0), FC], 1))
  {
    assert |BlockName(0)| > |FC|;
    OneBlockBeside(BlockName(0));
    assert OutNames([BlockName(0), FC], 1)[0] == OutNames([BlockName(0), FC], 1)[1];
  }

  lemma OneBlockBeside(name: string)
    requires name != FC
    ensures OutNames([name, FC], 1) == [name, BlockName(0)]
  {
    assert [name, FC][1..] == [FC] && [FC][1..] == [];
    assert BlockNames(1) == BlockNames(0) + [BlockName(0)];
    assert OutNames([FC], 1) == [BlockName(0)] + OutNames([], 1);
  }

  /** With distinct source names and `fc.weight` among them, nothing is overwritten iff no name is taken. */
  lemma {:induction false} OutNamesDistinctIff(names: seq<string>, taps: nat)
    requires Distinct(names)
    ensures Distinct(OutNames(names, taps)) <==> FC !in names || NoBlockName(names, taps)
  {
    if names != [] {
      var head, rest := names[0], names[1..];
      assert names == [head] + rest;
      DistinctConcat([head], rest);
      OutNamesDistinctIff(rest, taps);
      BlockNamesDistinct(taps);
      var first := if head == FC then BlockNames(taps) else [head];
      DistinctConcat(first, OutNames(rest, taps));
      forall x
        ensures x in OutNames(rest, taps) <==> (x in rest && x != FC) || (FC in rest && x in BlockNames(taps))
        ensures x in BlockNames(taps) <==> exists j: nat :: j < taps && x == BlockName(j)
      {
        InOutNames(rest, taps, x);
        InBlockNames(taps, x);
      }
      forall j: nat
        ensures BlockName(j) != FC
      {
        assert BlockName(j)[3..|BlockName(j)| - 7] == Decimal(j);
        assert |FC| == 9;
      }
    }
  }

  /** One output tensor: its name, shape, source tensor, and which block of it. */
  datatype Plan = Plan(name: string, shape: seq<nat>, source: string, block: Option<nat>)

  const OUT := "dspark."

  lemma {:induction false} OutNamesAppend(names: seq<string>, name: string, taps: nat)
    ensures OutNames(names + [name], taps) == OutNames(names, taps) + Published(name, taps)
  {
    if names == [] {
      OutNamesCons(name, [], taps);
      assert [] + [name] == [name] + [];
    } else {
      OutNamesAppend(names[1..], name, taps);
      assert names + [name] == [names[0]] + (names[1..] + [name]);
      OutNamesCons(names[0], names[1..] + [name], taps);
      Associative(Published(names[0], taps), OutNames(names[1..], taps), Published(name, taps));
    }
  }

  lemma OutNamesCons(head: string, rest: seq<string>, taps: nat)
    ensures OutNames([head] + rest, taps) == Published(head, taps) + OutNames(rest, taps)
  {
    assert ([head] + rest)[1..] == rest;
  }

  predicate Acceptable(header: Header, name: string, hidden: nat, taps: nat) {
    && name in header && header[name].dtype == "BF16"
    && (name == FC ==> header[name].shape == [hidden, taps * hidden])
  }

  /** The outputs of one source tensor: its `taps` square blocks for the projection, itself for any other. */
  function PlansFor(name: string, info: Info, hidden: nat, taps: nat): seq<Plan> {
    if name == FC then
      seq(taps, j requires 0 <= j < taps => Plan(OUT + BlockName(j), [hidden, hidden], name, Some(j)))
    else
      [Plan(OUT + name, info.shape, name, None)]
  }

  function PlansOf(names: seq<string>, header: Header, hidden: nat, taps: nat): seq<Plan>
    requires forall name :: name in names ==> name in header
  {
    if names == [] then []
    else
      var init, last := names[..|names| - 1], names[|names| - 1];
      PlansOf(init, header, hidden, taps) + PlansFor(last, header[last], hidden, taps)
  }

  ghost predicate Named(plan: seq<Plan>, outNames: seq<string>) {
    |plan| == |outNames| && forall i :: 0 <= i < |plan| ==> plan[i].name == OUT + outNames[i]
  }

  lemma PublishedNamed(name: string, info: Info, hidden: nat, taps: nat)
    ensures Named(PlansFor(name, info, hidden, taps), Published(name, taps))
  {
    BlockNamesDistinct(taps);
  }

  /** The planned outputs carry the published names, in order. */
  lemma {:induction false} PlansCarryNames(names: seq<string>, header: Header, hidden: nat, taps: nat)
    requires forall name :: name in names ==> name in header
    ensures Named(PlansOf(names, header, hidden, taps), OutNames(names, taps))
  {
    if names != [] {
      var init, last := names[..|names| - 1], names[|names| - 1];
      assert names == init + [last];
      PlansCarryNames(init, header, hidden, taps);
      PublishedNamed(last, header[last], hidden, taps);
      OutNamesAppend(init, last, taps);
    }
  }

  lemma LayoutNext(names: seq<string>, header: Header, hidden: nat, taps: nat, i: nat)
    requires i < |names| && forall name :: name in names ==> name in header
    ensures PlansOf(names[..i + 1], header, hidden, taps) ==
            PlansOf(names[..i], header, hidden, taps) + PlansFor(names[i], header[names[i]], hidden, taps)
    ensures FC in names[..i + 1] <==> FC in names[..i] || names[i] == FC
  {
    assert names[..i + 1][..i] == names[..i];
    assert names[..i + 1] == names[..i] + [names[i]];
  }

  /** `names` is the sorted list of the header's tensor names. */
  method Layout(names: seq<string>, header: Header, hidden: nat, taps: nat) returns (plan: Result<seq<Plan>>)
    requires forall name :: name in names ==> name in header
    ensures plan.Success? <==>
              FC in names && taps > 0 && forall name :: name in names ==> Acceptable(header, name, hidden, taps)
    ensures plan.Success? ==> plan.value == PlansOf(names, header, hidden, taps)
  {
    var out: seq<Plan> := [];
    var found := false;
    for i := 0 to |names|
      invariant out == PlansOf(names[..i], header, hidden, taps)
      invariant found <==> FC in names[..i] && taps > 0
      invariant forall k :: 0 <= k < i ==> Acceptable(header, names[k], hidden, taps)
    {
      var name := names[i];
      LayoutNext(names, header, hidden, taps, i);
      if !Acceptable(header, name, hidden, taps) {
        assert name in names;
        return Failure(name);
      }
      out := out + PlansFor(name, header[name], hidden, taps);
      found := found || (name == FC && taps > 0);
    }
    assert names[..|names|] == names;
    plan := if found then Success(out) else Failure("no fc.weight");
  }

  /** The size the header declares for a shape: the first two dimensions, two bytes an element. */
  function DeclaredSize(shape: seq<nat>): nat
    requires shape != []
  {
    2 * shape[0] * if |shape| > 1 then shape[1] else 1
  }

  lemma TwoDimensions(shape: seq<nat>)
    requires |shape| >= 2
    ensures Elements(shape) == shape[0] * (shape[1] * Elements(shape[2..]))
    ensures DeclaredSize(shape) == 2 * shape[0] * shape[1]
  {
    assert shape[1..][1..] == shape[2..] && shape[1..][0] == shape[1];
    assert Elements(shape[1..]) == shape[1] * Elements(shape[2..]);
  }

  /** The declared size is the real one exactly for shapes whose further dimensions hold one element, or none at all. */
  lemma DeclaredSizeIff(shape: seq<nat>)
    requires |shape| >= 2
    ensures DeclaredSize(shape) == 2 * Elements(shape) <==>
            Elements(shape[2..]) == 1 || shape[0] == 0 || shape[1] == 0
  {
    TwoDimensions(shape);
    CancelFactor(shape[0], shape[1], Elements(shape[2..]));
  }

  /** A tensor of shape [2, 3, 4] is declared at 12 bytes where it has 48. */
  lemma DeclaredSizeTooSmall()
    ensures DeclaredSize([2, 3, 4]) == 12 && 2 * Elements([2, 3, 4]) == 48
  {
    assert [2, 3, 4][1..] == [3, 4] && [3, 4][1..] == [4] && [4][1..] == [];
  }

  /** Vectors and matrices declare their real size. */
  lemma DeclaredSizeOfMatrix(shape: seq<nat>)
    requires 1 <= |shape| <= 2
    ensures DeclaredSize(shape) == 2 * Elements(shape)
  {
    if |shape| == 2 {
      assert shape[1..][1..] == [];
      assert Elements(shape[1..]) == shape[1] * 1;
    } else {
      assert shape[1..] == [];
    }
  }

  lemma CancelFactor(a: nat, b: nat, c: nat)
    ensures 2 * a * b == 2 * (a * (b * c)) <==> a == 0 || b == 0 || c == 1
  {
    var p := a * b;
    assert a * (b * c) == p * c && 2 * a * b == 2 * p;
    if a > 0 && b > 0 {
      MulMonotone(1, a, b);
      if c > 1 {
        MulMonotone(2, c, p);
      }
    }
  }

  // --- the written file ---------------------------------------------------

  /** What is read of a source record behind a head of `base` bytes; a negative length reads to the end. */
  function SourceBytes(source: Bytes, base: nat, info: Info): Bytes {
    Slice(source, base + info.start, if info.start <= info.end then base + info.end else |source|)
  }

  /** What is written for a plan: a block of the projection's columns, or the source tensor as it is. */
  function PlanData(p: Plan, header: Header, source: Bytes, base: nat, hidden: nat, taps: nat): Bytes
    requires p.source in header && p.shape != []
  {
    var data := SourceBytes(source, base, header[p.source]);
    match p.block
    case None => data
    case Some(j) => Block(data, 2 * Times(taps, hidden), 2 * hidden, j, p.shape[0])
  }

  ghost predicate Writable(plan: seq<Plan>, header: Header) {
    forall p :: p in plan ==> p.source in header && p.shape != []
  }

  function PlanEntry(p: Plan, header: Header, source: Bytes, base: nat, hidden: nat, taps: nat): Entry
    requires p.source in header && p.shape != []
  {
    Entry(p.name, "BF16", p.shape, DeclaredSize(p.shape), PlanData(p, header, source, base, hidden, taps))
  }

  function PlanEntries(plan: seq<Plan>, header: Header, source: Bytes, base: nat, hidden: nat, taps: nat): seq<Entry>
    requires Writable(plan, header)
  {
    seq(|plan|, i requires 0 <= i < |plan| => PlanEntry(plan[i], header, source, base, hidden, taps))
  }

  /** Header and data in plan order; fails on a tensor without dimensions. No length is checked. */
  method WritePlan(json: Json, plan: seq<Plan>, header: Header, source: Bytes, base: nat, hidden: nat, taps: nat)
    returns (file: Result<Bytes>)
    requires forall p :: p in plan ==> p.source in header
    ensures file.Success? ==> Writable(plan, header)
    ensures Writable(plan, header) ==>
              var entries := PlanEntries(plan, header, source, base, hidden, taps);
              (file.Success? <==> |Padded(json, HeaderOf(entries))| < Capacity(8)) &&
              (file.Success? ==> file.value == FileOf(json, entries))
  {
    for i := 0 to |plan|
      invariant forall k :: 0 <= k < i ==> plan[k].shape != []
    {
      if plan[i].shape == [] {
        assert plan[i] in plan;
        return Failure("no dimensions");
      }
    }
    ghost var entries := PlanEntries(plan, header, source, base, hidden, taps);
    var hdr := DeclarePlan(plan, header, source, base, hidden, taps);
    var blob := Padded(json, hdr);
    if |blob| >= Capacity(8) {
      return Failure("header too long");
    }
    var data := StreamPlan(plan, header, source, base, hidden, taps);
    file := Success(LittleEndian(|blob|, 8) + blob + data);
  }

  method DeclarePlan(plan: seq<Plan>, header: Header, source: Bytes, base: nat, hidden: nat, taps: nat)
    returns (hdr: Header)
    requires Writable(plan, header)
    ensures hdr == HeaderOf(PlanEntries(plan, header, source, base, hidden, taps))
  {
    ghost var entries := PlanEntries(plan, header, source, base, hidden, taps);
    var ofs := 0;
    hdr := map[];
    for i := 0 to |plan|
      invariant hdr == HeaderOf(entries[..i]) && ofs == TotalBytes(entries[..i])
    {
      assert plan[i] in plan && Init(entries[..i + 1]) == entries[..i];
      var size := DeclaredSize(plan[i].shape);
      hdr := hdr[plan[i].name := Info("BF16", plan[i].shape, ofs, ofs + size)];
      ofs := ofs + size;
    }
    assert entries[..|plan|] == entries;
  }

  method StreamPlan(plan: seq<Plan>, header: Header, source: Bytes, base: nat, hidden: nat, taps: nat)
    returns (out: Bytes)
    requires Writable(plan, header)
    ensures out == AllData(PlanEntries(plan, header, source, base, hidden, taps))
  {
    ghost var entries := PlanEntries(plan, header, source, base, hidden, taps);
    out := [];
    for i := 0 to |plan|
      invariant out == AllData(entries[..i])
    {
      assert plan[i] in plan && Init(entries[..i + 1]) == entries[..i];
      var data := SourceBytes(source, base, header[plan[i].source]);
      if plan[i].block.Some? {
        data := SplitColumns(data, plan[i].shape[0], 2 * Times(taps, hidden), 2 * hidden, plan[i].block.value);
      }
      out := out + data;
    }
    assert entries[..|plan|] == entries;
  }

  /** A checkpoint of vectors and matrices, each stored in full. */
  ghost predicate Stored(names: seq<string>, header: Header, source: Bytes, base: nat) {
    forall name :: name in names ==>
      && name in header && 1 <= |header[name].shape| <= 2
      && |SourceBytes(source, base, header[name])| == 2 * Elements(header[name].shape)
  }

  lemma {:induction false} PlanFrom(names: seq<string>, header: Header, hidden: nat, taps: nat, p: Plan)
    requires (forall name :: name in names ==> name in header) && p in PlansOf(names, header, hidden, taps)
    ensures p.source in names && p in PlansFor(p.source, header[p.source], hidden, taps)
  {
    var init, last := names[..|names| - 1], names[|names| - 1];
    assert names == init + [last];
    if p in PlansOf(init, header, hidden, taps) {
      PlanFrom(init, header, hidden, taps, p);
    }
  }

  /** Every planned tensor has exactly the size its shape declares. */
  lemma PlanHonest(names: seq<string>, header: Header, source: Bytes, base: nat, hidden: nat, taps: nat, p: Plan)
    requires Stored(names, header, source, base) && p in PlansOf(names, header, hidden, taps)
    requires forall name :: name in names ==> Acceptable(header, name, hidden, taps)
    ensures p.source in header && 1 <= |p.shape| <= 2
    ensures |PlanData(p, header, source, base, hidden, taps)| == DeclaredSize(p.shape)
  {
    PlanFrom(names, header, hidden, taps, p);
    var data := SourceBytes(source, base, header[p.source]);
    if p.source == FC {
      var j := p.block.value;
      MatrixElements(hidden, Times(taps, hidden));
      SquareBlock(data, hidden, taps, j);
    } else {
      DeclaredSizeOfMatrix(p.shape);
    }
  }

  lemma MatrixElements(a: nat, b: nat)
    ensures Elements([a, b]) == a * b
  {
    assert [a, b][1..] == [b] && [b][1..] == [];
    assert Elements([b]) == b * 1;
  }

  lemma SquareBlock(data: Bytes, hidden: nat, taps: nat, j: nat)
    requires |data| == 2 * (hidden * (taps * hidden)) && j < taps
    ensures |Block(data, 2 * (taps * hidden), 2 * hidden, j, hidden)| == DeclaredSize([hidden, hidden])
  {
    var row, part := 2 * Times(taps, hidden), 2 * hidden;
    PartsFull(data, hidden, taps, hidden, j, row, part);
    BlockLength(data, row, part, j, hidden);
  }

  /** From a stored checkpoint whose published names are distinct, every planned name reads back from the written
      file as exactly its column block or its source bytes. */
  lemma DsparkReadsBack(json: Json, names: seq<string>, header: Header, source: Bytes, base: nat, hidden: nat,
                        taps: nat, i: nat)
    requires RoundTrips(json) && Stored(names, header, source, base) && Distinct(OutNames(names, taps))
    requires forall name :: name in names ==> Acceptable(header, name, hidden, taps)
    requires i < |PlansOf(names, header, hidden, taps)|
    ensures var plan := PlansOf(names, header, hidden, taps);
            Writable(plan, header) &&
            var entries := PlanEntries(plan, header, source, base, hidden, taps);
            |Padded(json, HeaderOf(entries))| < Capacity(8) ==>
              ReadTensor(json, FileOf(json, entries), plan[i].name) ==
              Some(PlanData(plan[i], header, source, base, hidden, taps))
  {
    var plan := PlansOf(names, header, hidden, taps);
    forall p | p in plan
      ensures p.source in header && p.shape != []
      ensures |PlanData(p, header, source, base, hidden, taps)| == DeclaredSize(p.shape)
    {
      PlanHonest(names, header, source, base, hidden, taps, p);
    }
    var entries := PlanEntries(plan, header, source, base, hidden, taps);
    PlansCarryNames(names, header, hidden, taps);
    PlanNamesDistinct(plan, OutNames(names, taps));
    EntriesHonest(plan, header, source, base, hidden, taps);
    if |Padded(json, HeaderOf(entries))| < Capacity(8) {
      ReadBack(json, entries, plan[i].name);
      RegisteredAt(entries, i);
    }
  }

  lemma PlanNamesDistinct(plan: seq<Plan>, outNames: seq<string>)
    requires Named(plan, outNames) && Distinct(outNames)
    ensures forall i, j :: 0 <= i < j < |plan| ==> plan[i].name != plan[j].name
  {
    forall i, j | 0 <= i < j < |plan|
      ensures plan[i].name != plan[j].name
    {
      assert plan[i].name[|OUT|..] == outNames[i] && plan[j].name[|OUT|..] == outNames[j];
    }
  }

  lemma EntriesHonest(plan: seq<Plan>, header: Header, source: Bytes, base: nat, hidden: nat, taps: nat)
    requires Writable(plan, header)
    requires forall p :: p in plan ==> |PlanData(p, header, source, base, hidden, taps)| == DeclaredSize(p.shape)
    requires forall i, j :: 0 <= i < j < |plan| ==> plan[i].name != plan[j].name
    ensures var entries := PlanEntries(plan, header, source, base, hidden, taps);
            Honest(entries) && DistinctNames(entries)
  {
  }

  // --- from file to file ----------------------------------------------------

  /** Every tensor named can be read from the file, is a vector or a matrix, and has all its elements. */
  ghost predicate WellStored(json: Json, source: Bytes, names: seq<string>, header: Header) {
    forall name :: name in names ==>
      && name in header && 1 <= |header[name].shape| <= 2
      && ReadTensor(json, source, name).Some?
      && |ReadTensor(json, source, name).value| == 2 * Elements(header[name].shape)
  }

  lemma SourceReads(json: Json, source: Bytes, n: nat, header: Header, name: string)
    requires ParseHead(json, source) == Some((n, header)) && ReadTensor(json, source, name).Some?
    ensures name in header && SourceBytes(source, 8 + n, header[name]) == ReadTensor(json, source, name).value
  {
  }

  lemma {:induction false} PlanListed(names: seq<string>, header: Header, hidden: nat, taps: nat, name: string, p: Plan)
    requires forall x :: x in names ==> x in header
    requires name in names && p in PlansFor(name, header[name], hidden, taps)
    ensures p in PlansOf(names, header, hidden, taps)
  {
    var init, last := names[..|names| - 1], names[|names| - 1];
    assert names == init + [last];
    if name in init {
      PlanListed(init, header, hidden, taps, name, p);
    }
  }

  /** What the file written from a source reads under a planned name. */
  lemma PlanReads(json: Json, names: seq<string>, header: Header, source: Bytes, n: nat, hidden: nat, taps: nat,
                  file: Bytes, name: string, p: Plan)
    requires RoundTrips(json) && ParseHead(json, source) == Some((n, header))
    requires WellStored(json, source, names, header) && Distinct(OutNames(names, taps))
    requires forall x :: x in names ==> Acceptable(header, x, hidden, taps)
    requires name in names && p in PlansFor(name, header[name], hidden, taps)
    requires Written(json, names, header, source, 8 + n, hidden, taps, file)
    ensures p.source == name && p.shape != []
    ensures ReadTensor(json, file, p.name) == Some(PlanData(p, header, source, 8 + n, hidden, taps))
  {
    StoredBytes(json, source, n, names, header);
    PlanListed(names, header, hidden, taps, name, p);
    PlannedReads(json, names, header, source, 8 + n, hidden, taps, file, p);
  }

  lemma StoredBytes(json: Json, source: Bytes, n: nat, names: seq<string>, header: Header)
    requires ParseHead(json, source) == Some((n, header)) && WellStored(json, source, names, header)
    ensures Stored(names, header, source, 8 + n)
  {
    forall x | x in names
      ensures x in header && |SourceBytes(source, 8 + n, header[x])| == 2 * Elements(header[x].shape)
    {
      SourceReads(json, source, n, header, x);
    }
  }

  lemma PlannedReads(json: Json, names: seq<string>, header: Header, source: Bytes, base: nat, hidden: nat, taps: nat,
                     file: Bytes, p: Plan)
    requires RoundTrips(json) && Stored(names, header, source, base) && Distinct(OutNames(names, taps))
    requires forall x :: x in names ==> Acceptable(header, x, hidden, taps)
    requires Written(json, names, header, source, base, hidden, taps, file)
    requires p in PlansOf(names, header, hidden, taps)
    ensures p.source in header && p.shape != []
    ensures ReadTensor(json, file, p.name) == Some(PlanData(p, header, source, base, hidden, taps))
  {
    var plan := PlansOf(names, header, hidden, taps);
    var i :| 0 <= i < |plan| && plan[i] == p;
    DsparkReadsBack(json, names, header, source, base, hidden, taps, i);
  }

  /** `file` is what writing the plan of these names gives. */
  ghost predicate Written(json: Json, names: seq<string>, header: Header, source: Bytes, base: nat, hidden: nat,
                          taps: nat, file: Bytes)
    requires forall name :: name in names ==> name in header
  {
    var plan := PlansOf(names, header, hidden, taps);
    && Writable(plan, header)
    && |Padded(json, HeaderOf(PlanEntries(plan, header, source, base, hidden, taps)))| < Capacity(8)
    && file == FileOf(json, PlanEntries(plan, header, source, base, hidden, taps))
  }

  /** Every plain tensor reads from `file` under its published name as it reads from `source`. */
  ghost predicate PlainKept(json: Json, source: Bytes, file: Bytes, names: seq<string>) {
    forall name :: name in names && name != "fc.weight" ==>
      ReadTensor(json, file, "dspark." + name) == ReadTensor(json, source, name)
  }

  /** Every column block of the projection reads from `file` as that block of what the projection reads from
      `source`. */
  ghost predicate BlocksKept(json: Json, source: Bytes, file: Bytes, hidden: nat, taps: nat) {
    forall j: nat :: j < taps ==> BlockKept(json, source, file, hidden, taps, j)
  }

  ghost predicate BlockKept(json: Json, source: Bytes, file: Bytes, hidden: nat, taps: nat, j: nat) {
    var whole := ReadTensor(json, source, "fc.weight");
    whole.Some? && ReadTensor(json, file, "dspark.fc." + Decimal(j) + ".weight") ==
                   Some(Block(whole.value, 2 * (taps * hidden), 2 * hidden, j, hidden))
  }

  lemma PlainReads(json: Json, names: seq<string>, header: Header, source: Bytes, n: nat, hidden: nat, taps: nat,
                   file: Bytes)
    requires RoundTrips(json) && ParseHead(json, source) == Some((n, header))
    requires WellStored(json, source, names, header) && Distinct(OutNames(names, taps))
    requires forall x :: x in names ==> Acceptable(header, x, hidden, taps)
    requires Written(json, names, header, source, 8 + n, hidden, taps, file)
    ensures PlainKept(json, source, file, names)
  {
    forall name | name in names && name != FC
      ensures ReadTensor(json, file, OUT + name) == ReadTensor(json, source, name)
    {
      var p := Plan(OUT + name, header[name].shape, name, None);
      PlanReads(json, names, header, source, n, hidden, taps, file, name, p);
      SourceReads(json, source, n, header, name);
    }
  }

  lemma BlockSpelled(j: nat)
    ensures OUT + BlockName(j) == "dspark.fc." + Decimal(j) + ".weight"
  {
  }

  lemma PlannedBlock(header: Header, hidden: nat, taps: nat, j: nat)
    requires FC in header && j < taps
    ensures Plan(OUT + BlockName(j), [hidden, hidden], FC, Some(j)) in PlansFor(FC, header[FC], hidden, taps)
  {
    assert PlansFor(FC, header[FC], hidden, taps)[j] == Plan(OUT + BlockName(j), [hidden, hidden], FC, Some(j));
  }

  lemma BlockReads(json: Json, names: seq<string>, header: Header, source: Bytes, n: nat, hidden: nat, taps: nat,
                   file: Bytes, j: nat)
    requires RoundTrips(json) && ParseHead(json, source) == Some((n, header))
    requires WellStored(json, source, names, header) && Distinct(OutNames(names, taps))
    requires forall x :: x in names ==> Acceptable(header, x, hidden, taps)
    requires Written(json, names, header, source, 8 + n, hidden, taps, file) && FC in names && j < taps
    ensures BlockKept(json, source, file, hidden, taps, j)
  {
    var p := Plan(OUT + BlockName(j), [hidden, hidden], FC, Some(j));
    PlannedBlock(header, hidden, taps, j);
    BlockSpelled(j);
    PlanReads(json, names, header, source, n, hidden, taps, file, FC, p);
    SourceReads(json, source, n, header, FC);
  }

  /** Where every tensor can be read and the published names are distinct, what is written reads as what was there. */
  ghost predicate ReadsAlike(json: Json, source: Bytes, names: seq<string>, hidden: nat, taps: nat, file: Bytes) {
    var head := ParseHead(json, source);
    && head.Some? && FC in names && taps > 0
    && (RoundTrips(json) && Distinct(OutNames(names, taps)) && WellStored(json, source, names, head.value.1) ==>
          PlainKept(json, source, file, names) && BlocksKept(json, source, file, hidden, taps))
  }

  /** The whole rekey of a file from its parsed head, if it has one; `names` lists the tensors of the head. */
  method Rekey(json: Json, head: Option<(nat, Header)>, source: Bytes, names: seq<string>, hidden: nat, taps: nat)
    returns (file: Result<Bytes>)
    requires head.Some? ==> ListsNames(names, head.value.1)
    ensures file.Success? ==>
              head.Some? && Rekeyed(json, names, head.value.1, source, 8 + head.value.0, hidden, taps, file.value)
  {
    if head.None? {
      return Failure("no readable head");
    }
    file := RekeyTensors(json, names, head.value.1, source, 8 + head.value.0, hidden, taps);
  }

  ghost predicate ListsNames(names: seq<string>, header: Header) {
    forall name :: name in names <==> name in header
  }

  /** Layout and writing, from a head already parsed. */
  method RekeyTensors(json: Json, names: seq<string>, header: Header, source: Bytes, base: nat, hidden: nat, taps: nat)
    returns (file: Result<Bytes>)
    requires ListsNames(names, header)
    ensures file.Success? ==> Rekeyed(json, names, header, source, base, hidden, taps, file.value)
  {
    var plan := Layout(names, header, hidden, taps);
    if plan.Failure? {
      return Failure(plan.error);
    }
    PlanSources(names, header, hidden, taps);
    file := WritePlan(json, plan.value, header, source, base, hidden, taps);
  }

  ghost predicate Rekeyed(json: Json, names: seq<string>, header: Header, source: Bytes, base: nat, hidden: nat,
                          taps: nat, file: Bytes) {
    && ListsNames(names, header) && FC in names && taps > 0
    && (forall x :: x in names ==> Acceptable(header, x, hidden, taps))
    && Written(json, names, header, source, base, hidden, taps, file)
  }

  lemma PlanSources(names: seq<string>, header: Header, hidden: nat, taps: nat)
    requires forall name :: name in names ==> name in header
    ensures forall p :: p in PlansOf(names, header, hidden, taps) ==> p.source in header
  {
    forall p | p in PlansOf(names, header, hidden, taps)
      ensures p.source in header
    {
      PlanFrom(names, header, hidden, taps, p);
    }
  }

  /** Where every tensor can be read and the published names are distinct, what was written reads as what was there. */
  lemma RekeyReads(json: Json, names: seq<string>, header: Header, source: Bytes, n: nat, hidden: nat, taps: nat,
                   file: Bytes)
    requires ParseHead(json, source) == Some((n, header))
    requires Rekeyed(json, names, header, source, 8 + n, hidden, taps, file)
    ensures ReadsAlike(json, source, names, hidden, taps, file)
  {
    if RoundTrips(json) && Distinct(OutNames(names, taps)) && WellStored(json, source, names, header) {
      PlainReads(json, names, header, source, n, hidden, taps, file);
      forall j: nat | j < taps
        ensures BlockKept(json, source, file, hidden, taps, j)
      {
        BlockReads(json, names, header, source, n, hidden, taps, file, j);
      }
    }
  }
}
