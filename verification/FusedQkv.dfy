/**
  The two republications of the attention input projections: the fused QKV-A weight
  (`glm52_prep_fp8_linear.py`, `qkva_entries`) and the KV-latent prefix (`glm53_prep_blk.py`).
  Bytes are copied; what must be kept is what the bytes dequantise to.
 */
module FusedQkv {
  import opened Common
  import opened Safetensors
  import opened Shards
  import opened BlockScale
  import LinearMaps

  /** How the two element types read: one FP8 byte, four F32 bytes. */
  datatype Decoder = Decoder(fp8: Bytes -> real, f32: Bytes -> real)

  /** The elements of `b`, `size` bytes each. */
  function Elements(b: Bytes, size: nat, read: Bytes -> real): seq<real>
    requires size > 0
  {
    if |b| < size then [] else [read(b[..size])] + Elements(b[size..], size, read)
  }

  lemma {:induction false} ElementsConcat(a: Bytes, n: nat, b: Bytes, size: nat, read: Bytes -> real)
    requires size > 0 && |a| == n * size
    ensures Elements(a + b, size, read) == Elements(a, size, read) + Elements(b, size, read)
    ensures |Elements(a, size, read)| == n
  {
    if n == 0 {
      assert a + b == b;
    } else {
      LessOne(n, size);
      ElementsConcat(a[size..], n - 1, b, size, read);
      HeadOfConcat(a, b, size);
    }
  }

  lemma LessOne(n: nat, size: nat)
    requires n > 0
    ensures n * size == (n - 1) * size + size && (n - 1) * size >= 0
  {
  }

  lemma HeadOfConcat(a: Bytes, b: Bytes, size: nat)
    requires size <= |a|
    ensures (a + b)[..size] == a[..size] && (a + b)[size..] == a[size..] + b
  {
  }

  function Weight(d: Decoder, b: Bytes): seq<real> { Elements(b, 1, d.fp8) }

  function Scales(d: Decoder, b: Bytes): seq<real> { Elements(b, 4, d.f32) }

  /** A weight of `n` rows and `k` columns with its scale grid, as the checkpoint declares and stores them. */
  predicate Declares(weight: Rec, scale: Rec, n: nat, k: nat) {
    DeclaresWeight(weight, n, k) && DeclaresScale(scale, n, k)
  }

  predicate DeclaresWeight(weight: Rec, n: nat, k: nat) {
    weight.dtype == "F8_E4M3" && weight.shape == [n, k] && weight.b == weight.a + n * k
  }

  predicate DeclaresScale(scale: Rec, n: nat, k: nat) {
    && scale.dtype == "F32" && scale.shape == [Blocks(n), Blocks(k)]
    && scale.b == scale.a + Blocks(n) * Blocks(k) * 4
  }

  lemma DeclaredShape(d: Decoder, disk: Disk, weight: Rec, scale: Rec, n: nat, k: nat)
    requires Declares(weight, scale, n, k) && OnDisk(disk, weight) && OnDisk(disk, scale) && k > 0
    ensures Shaped(Weight(d, BytesOf(disk, weight)), Scales(d, BytesOf(disk, scale)), n, k)
  {
    ElementsConcat(BytesOf(disk, weight), n * k, [], 1, d.fp8);
    ElementsConcat(BytesOf(disk, scale), Blocks(n) * Blocks(k), [], 4, d.f32);
  }

  /** What the stored weight means. */
  function Dequantised(d: Decoder, disk: Disk, weight: Rec, scale: Rec, n: nat, k: nat): (r: seq<real>)
    requires Declares(weight, scale, n, k) && OnDisk(disk, weight) && OnDisk(disk, scale) && k > 0
    ensures |r| == n * k
  {
    DeclaredShape(d, disk, weight, scale, n, k);
    Dequant(Weight(d, BytesOf(disk, weight)), Scales(d, BytesOf(disk, scale)), n, k)
  }

  // --- the fused QKV-A weight ---------------------------------------------

  datatype QkvConfig = QkvConfig(hidden: nat, q: nat, kv: nat)

  type Index = map<string, Rec>

  function Suffixed(proj: string, suffix: string): string { proj + ".weight" + suffix }

  lemma SpelledOut(prefix: string)
    ensures Suffixed(prefix + "q_a_proj", "") == prefix + "q_a_proj.weight"
    ensures Suffixed(prefix + "kv_a_proj_with_mqa", "") == prefix + "kv_a_proj_with_mqa.weight"
    ensures Suffixed(prefix + "q_a_proj", "_scale_inv") == prefix + "q_a_proj.weight_scale_inv"
    ensures Suffixed(prefix + "kv_a_proj_with_mqa", "_scale_inv") == prefix + "kv_a_proj_with_mqa.weight_scale_inv"
    ensures Suffixed(prefix + "fused_qkv_a_proj", "_fp8") == prefix + "fused_qkv_a_proj.weight_fp8"
    ensures Suffixed(prefix + "fused_qkv_a_proj", "_scale_inv") == prefix + "fused_qkv_a_proj.weight_scale_inv"
  {
  }

  /** Checks the four source records and pairs them up: weights together, scale grids together. */
  method QkvaEntries(src: Index, c: QkvConfig, prefix: string) returns (entries: Result<seq<(string, seq<Rec>)>>)
    ensures entries.Success? <==> QkvaAccepts(src, c, prefix)
    ensures entries.Success? ==>
              && prefix + "q_a_proj.weight" in src && prefix + "kv_a_proj_with_mqa.weight" in src
              && prefix + "q_a_proj.weight_scale_inv" in src && prefix + "kv_a_proj_with_mqa.weight_scale_inv" in src
              && entries.value == [(prefix + "fused_qkv_a_proj.weight_fp8",
                                    [src[prefix + "q_a_proj.weight"], src[prefix + "kv_a_proj_with_mqa.weight"]]),
                                   (prefix + "fused_qkv_a_proj.weight_scale_inv",
                                    [src[prefix + "q_a_proj.weight_scale_inv"],
                                     src[prefix + "kv_a_proj_with_mqa.weight_scale_inv"]])]
  {
    if c.hidden < 1 || c.q < 1 || c.kv < 1 || c.hidden % 128 != 0 || c.q % 128 != 0 {
      return Failure("block-aligned K and Q/KV concatenation boundary required");
    }
    var names := [Suffixed(prefix + "q_a_proj", ""), Suffixed(prefix + "kv_a_proj_with_mqa", ""),
                  Suffixed(prefix + "q_a_proj", "_scale_inv"), Suffixed(prefix + "kv_a_proj_with_mqa", "_scale_inv")];
    if names[0] !in src || names[1] !in src || names[2] !in src || names[3] !in src {
      return Failure("missing tensor");
    }
    var qa, kva, qs, kvs := src[names[0]], src[names[1]], src[names[2]], src[names[3]];
    var qaOk := CheckWeight(qa, c.q, c.hidden);
    var kvaOk := CheckWeight(kva, c.kv, c.hidden);
    if !qaOk || !kvaOk {
      return Failure("unexpected weight");
    }
    var qsOk := CheckScale(qs, c.q, c.hidden);
    var kvsOk := CheckScale(kvs, c.kv, c.hidden);
    if !qsOk || !kvsOk {
      return Failure("unexpected scale grid");
    }
    SpelledOut(prefix);
    entries := Success([(Suffixed(prefix + "fused_qkv_a_proj", "_fp8"), [qa, kva]),
                        (Suffixed(prefix + "fused_qkv_a_proj", "_scale_inv"), [qs, kvs])]);
  }

  method CheckWeight(rec: Rec, n: nat, h: nat) returns (ok: bool)
    ensures ok <==> DeclaresWeight(rec, n, h)
  {
    ok := rec.dtype == "F8_E4M3" && rec.shape == [n, h] && rec.b - rec.a == n * h;
  }

  /** The grid has a column for each 128 of the `h` columns, which are aligned, and a row for each 128 rows begun. */
  method CheckScale(rec: Rec, n: nat, h: nat) returns (ok: bool)
    requires h % BLOCK == 0
    ensures ok <==> DeclaresScale(rec, n, h)
  {
    var s := h / 128;
    assert s == Blocks(h) && (n + 127) / 128 == Blocks(n);
    ok := rec.dtype == "F32" && rec.shape == [(n + 127) / 128, s] && rec.b - rec.a == (n + 127) / 128 * s * 4;
  }

  ghost predicate QkvaAccepts(src: Index, c: QkvConfig, prefix: string) {
    var q, kv := prefix + "q_a_proj", prefix + "kv_a_proj_with_mqa";
    && c.hidden >= 1 && c.q >= 1 && c.kv >= 1 && c.hidden % BLOCK == 0 && c.q % BLOCK == 0
    && Suffixed(q, "") in src && Suffixed(q, "_scale_inv") in src
    && Suffixed(kv, "") in src && Suffixed(kv, "_scale_inv") in src
    && Declares(src[Suffixed(q, "")], src[Suffixed(q, "_scale_inv")], c.q, c.hidden)
    && Declares(src[Suffixed(kv, "")], src[Suffixed(kv, "_scale_inv")], c.kv, c.hidden)
  }

  lemma JoinedPair(disk: Disk, x: Rec, y: Rec)
    requires OnDisk(disk, x) && OnDisk(disk, y)
    ensures AllOnDisk(disk, [x, y]) && Joined(disk, [x, y]) == BytesOf(disk, x) + BytesOf(disk, y)
  {
    assert [x, y][..1] == [x] && [x][..0] == [];
    assert Joined(disk, [x]) == [] + BytesOf(disk, x);
  }

  /** Accepted records publish one weight that dequantises to the Q rows followed by the KV rows. */
  lemma FusedIsStacked(d: Decoder, disk: Disk, qa: Rec, qs: Rec, kva: Rec, kvs: Rec, q: nat, kv: nat, h: nat)
    requires q % BLOCK == 0 && h > 0 && Declares(qa, qs, q, h) && Declares(kva, kvs, kv, h)
    requires OnDisk(disk, qa) && OnDisk(disk, qs) && OnDisk(disk, kva) && OnDisk(disk, kvs)
    ensures AllOnDisk(disk, [qa, kva]) && AllOnDisk(disk, [qs, kvs])
    ensures var w, s := Weight(d, Joined(disk, [qa, kva])), Scales(d, Joined(disk, [qs, kvs]));
            Shaped(w, s, q + kv, h) &&
            Dequant(w, s, q + kv, h) == Dequantised(d, disk, qa, qs, q, h) + Dequantised(d, disk, kva, kvs, kv, h)
  {
    JoinedPair(disk, qa, kva);
    JoinedPair(disk, qs, kvs);
    ElementsConcat(BytesOf(disk, qa), q * h, BytesOf(disk, kva), 1, d.fp8);
    ElementsConcat(BytesOf(disk, qs), Blocks(q) * Blocks(h), BytesOf(disk, kvs), 4, d.f32);
    DeclaredShape(d, disk, qa, qs, q, h);
    DeclaredShape(d, disk, kva, kvs, kv, h);
    DequantConcat(Weight(d, BytesOf(disk, qa)), Scales(d, BytesOf(disk, qs)), q,
                  Weight(d, BytesOf(disk, kva)), Scales(d, BytesOf(disk, kvs)), kv, h);
  }

  // --- the KV-latent prefix -----------------------------------------------

  /** The record of the first `rows` rows; `None` where the source divides by zero or its assertion fails. */
  function RowsPrefix(rec: Rec, rows: nat): Option<Rec>
  {
    if rec.shape == [] || rec.shape[0] == 0 || rec.b < rec.a then None
    else
      var rowBytes := (rec.b - rec.a) / rec.shape[0];
      if rowBytes * rec.shape[0] == rec.b - rec.a && rows <= rec.shape[0]
      then Some(Rec(rec.path, rec.a, rec.a + rows * rowBytes, rec.dtype, [rows] + rec.shape[1..]))
      else None
  }

  lemma PrefixOf(rec: Rec, n: nat, rowBytes: nat, rows: nat)
    requires rec.shape != [] && rec.shape[0] == n > 0 && rec.b == rec.a + n * rowBytes && rows <= n
    ensures RowsPrefix(rec, rows) ==
            Some(Rec(rec.path, rec.a, rec.a + rows * rowBytes, rec.dtype, [rows] + rec.shape[1..]))
    ensures rows * rowBytes <= n * rowBytes
  {
    LinearMaps.MulMonotone(rows, n, rowBytes);
    LinearMaps.FlatIndex(rowBytes, n, 0);
    assert (rec.b - rec.a) / n == rowBytes;
  }

  function CutTo(rec: Rec, bytes: nat, rows: nat): Rec
    requires rec.shape != []
  {
    Rec(rec.path, rec.a, rec.a + bytes, rec.dtype, [rows] + rec.shape[1..])
  }

  lemma CutBytes(disk: Disk, rec: Rec, bytes: nat, rows: nat)
    requires OnDisk(disk, rec) && rec.shape != [] && rec.a + bytes <= rec.b
    ensures OnDisk(disk, CutTo(rec, bytes, rows))
    ensures BytesOf(disk, CutTo(rec, bytes, rows)) == BytesOf(disk, rec)[..bytes]
  {
    CutTwice(disk[rec.path], rec.a, rec.b, bytes);
  }

  lemma CutTwice<T>(s: seq<T>, a: nat, b: nat, n: nat)
    requires a + n <= b <= |s|
    ensures s[a..b][..n] == s[a..a + n]
  {
  }

  /** Both cuts succeed, and together they declare a weight of `b` block rows. */
  lemma PrefixDeclared(weight: Rec, scale: Rec, n: nat, k: nat, b: nat)
    requires Declares(weight, scale, n, k) && n > 0 && b * BLOCK <= n
    ensures var w, s := CutTo(weight, b * BLOCK * k, b * BLOCK), CutTo(scale, b * Blocks(k) * 4, b);
            && RowsPrefix(weight, b * BLOCK) == Some(w) && RowsPrefix(scale, b) == Some(s)
            && Declares(w, s, b * BLOCK, k)
            && b * BLOCK * k <= n * k && b * Blocks(k) <= Blocks(n) * Blocks(k)
            && w.b <= weight.b && s.b <= scale.b
  {
    var kb := Blocks(k);
    assert Blocks(b * BLOCK) == b <= Blocks(n);
    assert Blocks(n) * kb * 4 == Blocks(n) * (kb * 4);
    assert b * kb * 4 == b * (kb * 4);
    PrefixOf(weight, n, k, b * BLOCK);
    PrefixOf(scale, Blocks(n), kb * 4, b);
    LinearMaps.MulMonotone(b, Blocks(n), kb);
  }

  /** The first `b` block rows, cut from the weight and from its grid, are a weight of their own with the same
      meaning. */
  lemma PrefixIsExact(d: Decoder, disk: Disk, weight: Rec, scale: Rec, n: nat, k: nat, b: nat)
    requires Declares(weight, scale, n, k) && OnDisk(disk, weight) && OnDisk(disk, scale)
    requires k > 0 && n > 0 && b * BLOCK <= n
    ensures RowsPrefix(weight, b * BLOCK).Some? && RowsPrefix(scale, b).Some?
    ensures var w, s := RowsPrefix(weight, b * BLOCK).value, RowsPrefix(scale, b).value;
            && OnDisk(disk, w) && OnDisk(disk, s) && Declares(w, s, b * BLOCK, k)
            && b * BLOCK * k <= n * k
            && Dequantised(d, disk, w, s, b * BLOCK, k) == Dequantised(d, disk, weight, scale, n, k)[..b * BLOCK * k]
  {
    PrefixDeclared(weight, scale, n, k, b);
    PrefixMeans(d, disk, weight, scale, n, k, b, LinearMaps.Times(b * BLOCK, k), LinearMaps.Times(b, Blocks(k)));
  }

  lemma PrefixMeans(d: Decoder, disk: Disk, weight: Rec, scale: Rec, n: nat, k: nat, b: nat, len: nat, grid: nat)
    requires Declares(weight, scale, n, k) && OnDisk(disk, weight) && OnDisk(disk, scale)
    requires k > 0 && b * BLOCK <= n && len == b * BLOCK * k && grid == b * Blocks(k)
    requires weight.a + len <= weight.b && scale.a + grid * 4 <= scale.b
    requires Declares(CutTo(weight, len, b * BLOCK), CutTo(scale, grid * 4, b), b * BLOCK, k)
    ensures var w, s := CutTo(weight, len, b * BLOCK), CutTo(scale, grid * 4, b);
            && OnDisk(disk, w) && OnDisk(disk, s) && len <= n * k
            && Dequantised(d, disk, w, s, b * BLOCK, k) == Dequantised(d, disk, weight, scale, n, k)[..len]
  {
    CutBytes(disk, weight, len, b * BLOCK);
    CutBytes(disk, scale, grid * 4, b);
    DeclaredShape(d, disk, weight, scale, n, k);
    ElementsPrefix(BytesOf(disk, weight), len, 1, d.fp8);
    ElementsPrefix(BytesOf(disk, scale), grid, 4, d.f32);
    DequantPrefix(Weight(d, BytesOf(disk, weight)), Scales(d, BytesOf(disk, scale)), n, k, b);
  }

  lemma ElementsPrefix(b: Bytes, n: nat, size: nat, read: Bytes -> real)
    requires size > 0 && n * size <= |b|
    ensures n <= |Elements(b, size, read)|
    ensures Elements(b[..n * size], size, read) == Elements(b, size, read)[..n]
  {
    ElementsConcat(b[..n * size], n, b[n * size..], size, read);
    assert b == b[..n * size] + b[n * size..];
  }
}
