# Verified model of the weight-preparation and evidence tooling

These modules model the host tooling that stands between a published checkpoint and the runtime, and between a
measurement and a claim. None of it may change what a model computes or what a number means; the proofs say so
for all inputs.

| module | what it models |
|---|---|
| `Bpe`, `ByteKeys`, `Tokenizer`, `TokenizerFile` | conversion of a rank table into a merge list, and the equality of the two encoders |
| `Bf16`, `SelectKey` | narrowing to bf16 by integer addition; the 52-bit selection key and the top-k set |
| `LinearMaps`, `Absorption`, `Rope` | weight absorption, output folding, and the two rotary layouts, over the reals |
| `BlockScale`, `FusedQkv`, `MlaShards`, `ExpertQuant`, `ColumnSplit` | block-scaled FP8, fused and sliced weights, per-rank shards, int4 experts, column splits |
| `Safetensors`, `Shards`, `Sidecar` | two-pass writers, header rewriting, and the checks that let an interrupted run resume |
| `Tally`, `TraceWalk` | attribution of a step's time to packets |
| `Statistics`, `Ledger` | the append-only performance ledger under its lock |
| `TrialSchedule`, `KernelVerify`, `WinnerChoice`, `KernelTuner` | verification, the anchored trial schedule, winner choice and rollup of the kernel tuner |
| `AuditBless` | the object contract and blessing its baseline |
| `PacketDigest` | the section-aware packet digest |

`dafny verify dfyconfig.toml` checks everything.

Arithmetic on weights is over the reals, with row-major indices written out; bit patterns, offsets and byte
strings are integers and sequences with the widths of the source. Loops that update buffers, lists and
dictionaries are methods proved against functions, and the main results are lemmas about those functions.

## Where code and documentation disagree

The model follows the code. For each difference one lemma states exactly when the documented property holds and
another gives an input for which it does not.

- `scripts/kimi_k3_tokenizer.py` promises the same ids as the rank table. Specials are added after the table
  tokens and overwrite a vocabulary entry of the same text (lines 158-160), and a byte without a token, which the
  checks let pass, is dropped instead of failing. For a table that passes the checks the promise holds on every byte
  string if and only if every byte has a token and no special is spelled like a table key:
  `TokenizerFile.AgreesEverywhereIff`, `TokenizerFile.SpecialNamedLikeByte`, `TokenizerFile.ByteNotInTable`.
- `scripts/glm52_indexer_oracle.py` documents lowest index on equal scores. A -0 and a +0 are equal scores with
  different keys, and past 2^20 positions the index field wraps: `SelectKey.DocumentedOrderIff`,
  `SelectKey.TieBreakIff`, `SelectKey.TiesLost`.
- `scripts/gemma31_dec_phase.py` prints that the columns sum to the step. They do exactly when no packet arrives
  after everything before it has ended: `TraceWalk.ChargesFillEnvelopeIff`, `TraceWalk.ColumnsMissTheGap`. It
  documents that they are the covered envelope (line 25). They are exactly when no packet runs during a gap already
  counted before an earlier packet: `TraceWalk.ChargesAreCoveredIff`, `TraceWalk.LateCoverNotCharged`.
- `scripts/gemma4_dspark_rekey.py` publishes the blocks of `fc.weight` as `fc.<j>.weight`; a source tensor already
  so named would be overwritten (`ColumnSplit.OutNamesDistinctIff`, `ColumnSplit.BlockNameTaken`). The declared size
  ignores dimensions past the second (`ColumnSplit.DeclaredSizeIff`, `ColumnSplit.DeclaredSizeTooSmall`).
- `scripts/kimi_k27_prep.py` documents the MXFP4 scale as the smallest power of two that covers the group. With
  the clamp at 1e-30 it is not for vanishing groups: `ExpertQuant.SmallestScaleIff`,
  `ExpertQuant.ClampedScaleNotSmallest`. The scales are multiplied in, not returned as documented.
- `scripts/asm_audit.py` describes under-reported spill as a failure on its own. Without a matching baseline row it
  is an advisory, and with one it fails only where it exceeds what the row records: `AuditBless.LieFailsIff`,
  `AuditBless.UnrecordedLiePasses`.

## Model

| member | source | states |
|---|---|---|
| Bpe.RunKeepsText | scripts/kimi_k3_tokenizer.py:66-85 | greedy joining, whatever the priority, never loses, adds or reorders a symbol |
| Bpe.SpanOfRun | scripts/kimi_k3_tokenizer.py:66-85 | for every run and every span of parts of a reached state, the joins made inside that span are a run on the span alone |
| Bpe.SpanReachedFromItself | scripts/kimi_k3_tokenizer.py:66-85 | started from single symbols, every span of a reached state is reached from its own symbols |
| Bpe.PairReached | scripts/kimi_k3_tokenizer.py:66-85 | two adjacent parts of a reached state form a state of the run on their own concatenation |
| Bpe.ReachesUnique | scripts/kimi_k3_tokenizer.py:66-85 | a run passes through at most one state of each length |
| Bpe.AgreeSameBest | scripts/kimi_k3_tokenizer.py:66-85 | two priority functions that allow the same joins and order them alike choose the same join, leftmost on ties |
| Bpe.CappedRunIsPrefix | scripts/kimi_k3_tokenizer.py:66-85 | a run under a rank ceiling is the beginning of the unrestricted run |
| Bpe.HistoryEnds | scripts/kimi_k3_tokenizer.py:75-84 | any sequence of states in which each step is a join that may be chosen, until none may, ends where the greedy run ends |
| Bpe.EndsInIff | scripts/kimi_k3_tokenizer.py:75-84 | so what single symbols become is exactly the end of such a history, whichever way of naming the choice says the same |
| ByteKeys.CodePointInjective | scripts/kimi_k3_tokenizer.py:39-58 | the byte-to-character map is one to one and stays within plain characters |
| ByteKeys.CodePointIs | scripts/kimi_k3_tokenizer.py:39-58 | the bytes "!" to "~" and from 161 on all but 173 keep their number, the others follow from 256 on in order |
| ByteKeys.TableLists | scripts/kimi_k3_tokenizer.py:39-58 | the two parallel lists built by the loop hold every byte once, with its code point beside it |
| ByteKeys.ByteToUnicode | scripts/kimi_k3_tokenizer.py:39-58 | the resulting dictionary is total on bytes and is exactly that map |
| ByteKeys.EncKeyInjective | scripts/kimi_k3_tokenizer.py:61-62 | different byte strings have different keys |
| ByteKeys.EncKeyConcat | scripts/kimi_k3_tokenizer.py:61-62 | the key of a concatenation is the concatenation of the keys |
| Tokenizer.RecoverMerge | scripts/kimi_k3_tokenizer.py:66-85 | the in-place splicing loop ends in the parts that joining, over and over, the adjacent pair whose token has the lowest rank strictly below the ceiling leads to: no adjacent pair is left that forms a token of lower rank, every part is a byte or a token of lower rank, and of a table token of two or more bytes at least two parts are left |
| Tokenizer.RecoverReplays | scripts/kimi_k3_tokenizer.py:66-85 | some history of joins of the lowest-ranked pair strictly below the ceiling, leftmost on ties, leads to these parts if and only if the loop ends in them |
| Tokenizer.ReplayLeaves | scripts/kimi_k3_tokenizer.py:66-85 | such a history leaves no pair of lower rank, only bytes and tokens of lower rank, and of a token of its own rank at least two parts |
| Tokenizer.EncodingReplays | scripts/kimi_k3_tokenizer.py:66-85 | the rank-driven encoder is the same history without a ceiling |
| Tokenizer.TwoPartsIff | scripts/kimi_k3_tokenizer.py:151-156 | the acceptance condition is that every token other than a single byte has a history under its own rank that ends in two parts |
| Tokenizer.SortByRank | scripts/kimi_k3_tokenizer.py:141-147 | the tokens are listed by rank, or refused exactly when the ranks are not 0..n-1 |
| Tokenizer.JoinableIsRecovered | scripts/kimi_k3_tokenizer.py:66-85 | in every state a rank-driven run passes through, an adjacent pair the table can join is the recovered pair of the token it forms |
| Tokenizer.MergeIndex | scripts/kimi_k3_tokenizer.py:147-156 | a pair is in the merge list exactly when it is the recovered pair of its concatenation, and its index counts the multi-byte tokens of lower rank |
| Tokenizer.MergesAre | scripts/kimi_k3_tokenizer.py:151-156 | the merges are exactly the keys of the pairs a, b for which a + b is a token whose replay under its own rank ends in a and b |
| Tokenizer.MergesByRank | scripts/kimi_k3_tokenizer.py:147-156 | they stand in the order of their tokens' ranks |
| Tokenizer.MergingReplays | scripts/kimi_k3_tokenizer.py:141-156 | the merge-list encoder is the history that joins the adjacent pair listed earliest |
| Tokenizer.SameCandidates | scripts/kimi_k3_tokenizer.py:66-85 | in every reached state the rank table and the merge list allow the same joins in the same order of preference |
| Tokenizer.SameStep | scripts/kimi_k3_tokenizer.py:66-85 | hence both make the same join at every step |
| Tokenizer.SameRunFrom | scripts/kimi_k3_tokenizer.py:141-156 | from every reached state the two runs stay equal to their end |
| Tokenizer.SameEncoding | scripts/kimi_k3_tokenizer.py:141-156 | on every byte string the rank table and the merge list end in the same token sequence |
| Tokenizer.TokenIsItself | scripts/kimi_k3_tokenizer.py:147-156 | every table token's own bytes encode to exactly that one token |
| TokenizerFile.NumberTokens | scripts/kimi_k3_tokenizer.py:147-150 | the vocabulary maps the key of the token of rank r to r |
| TokenizerFile.NumberSpecials | scripts/kimi_k3_tokenizer.py:156-160 | special tokens take the ids from the base on and overwrite a vocabulary entry of the same text |
| TokenizerFile.RecoverAll | scripts/kimi_k3_tokenizer.py:147-156 | one merge per multi-byte token in rank order; refused exactly when some token does not replay to two parts (`Tokenizer.TwoPartsIff`) |
| TokenizerFile.Build | scripts/kimi_k3_tokenizer.py:141-160 | a table is accepted if and only if it is dense and every token other than a single byte has a replay, strictly below its own rank, that ends in two parts; the output is its conversion |
| TokenizerFile.SmallTable | scripts/kimi_k3_tokenizer.py:141-160 | the table of "a", "b" and "ab" is accepted, with "ab" as its one merge |
| TokenizerFile.ShortcutAgrees | scripts/kimi_k3_tokenizer.py:141-156 | the whole-piece lookup of the rank-driven encoder never changes the answer |
| TokenizerFile.IdsAgree | scripts/kimi_k3_tokenizer.py:141-160 | on every byte string over known bytes the written file yields exactly the ids of the rank table |
| TokenizerFile.SpecialShadowsToken | scripts/kimi_k3_tokenizer.py:158-160 | a special token spelled like a table token's key makes that token's own bytes encode differently |
| TokenizerFile.SpecialNamedLikeByte | scripts/kimi_k3_tokenizer.py:158-160 | for instance a table of the one byte 97 with a special "a" |
| TokenizerFile.MissingByte | scripts/kimi_k3_tokenizer.py:141-160 | a byte without a token has no rank-driven ids, while the written file gives some |
| TokenizerFile.ByteNotInTable | scripts/kimi_k3_tokenizer.py:141-160 | for instance a table of the one byte 97, without specials, on the byte 98 |
| TokenizerFile.AgreesEverywhereIff | scripts/kimi_k3_tokenizer.py:141-160 | for every table that passes the checks, the two agree on every byte string if and only if every byte has a token and no special is spelled like a table key |
| TokenizerFile.DecodeEncode | scripts/kimi_k3_tokenizer.py:141-160 | decoding an encoding gives the input bytes back |
| Bf16.F32ToBf16 | scripts/kimi_k3_prep.py:138-145 | the vectorised add, shift and masked NaN write give, element by element, the narrowing that the lemmas below are about |
| Bf16.MagnitudeIsSignificandTimesPower | scripts/kimi_k3_prep.py:134-145 | the value of a pattern used here is the textbook one: significand with its implicit bit times a power of two |
| Bf16.MagnitudeIncreasing | scripts/kimi_k3_prep.py:134-145 | larger unsigned pattern, larger value |
| Bf16.EvenlySpaced | scripts/kimi_k3_prep.py:138-145 | between neighbouring bf16 values the f32 values are evenly spaced, also across a binade and into infinity |
| Bf16.NarrowSplits | scripts/kimi_k3_prep.py:138-145 | for every non-NaN the 32-bit addition does not wrap, the sign survives, and the upper half is rounded up exactly past the midpoint or on it from an odd pattern |
| Bf16.NarrowIsNearestEven | scripts/kimi_k3_prep.py:138-145 | round to nearest, ties to even, on every f32 that is not a NaN (section 4.3.1 of IEEE 754-2019) |
| Bf16.NearestEvenUnique | scripts/kimi_k3_prep.py:138-145 | that specification leaves exactly one result |
| Bf16.OverflowThreshold | scripts/kimi_k3_prep.py:138-145 | the result is infinite exactly from the midpoint of the largest finite bf16 and 2^128 upwards |
| Bf16.NarrowMonotone | scripts/kimi_k3_prep.py:138-145 | a larger value never narrows to a smaller one |
| Bf16.NarrowWiden | scripts/kimi_k3_prep.py:134-145 | narrowing undoes widening on every non-NaN; every NaN becomes the one quiet NaN |
| Bf16.WidenBytes | scripts/gemma4_fp8_hub_rekey.py:39-43 | two strided copies into a zeroed buffer: byte by byte the widened data |
| Bf16.WidenedWords | scripts/gemma4_fp8_hub_rekey.py:39-43 | read as little-endian words, the widened bytes are the widened patterns |
| Bf16.WordsAreLittleEndian | scripts/gemma4_fp8_hub_rekey.py:39-43 | the words are read from bytes 2i and 4i on, lowest byte first |
| SelectKey.OrderedBitsIsTotalOrder | scripts/glm52_indexer_oracle.py:42-48 | the bit trick orders patterns by the total order of section 5.10 of IEEE 754-2019 and confuses no two |
| SelectKey.KeyOrder | scripts/glm52_indexer_oracle.py:42-48 | up to 2^20 positions: key order is (score descending, position ascending), keys are distinct and below 2^52 |
| SelectKey.TieBreakIff | scripts/glm52_indexer_oracle.py:42-48 | lowest position wins every tie if and only if there are at most 2^20 positions |
| SelectKey.DocumentedOrderIff | scripts/glm52_indexer_oracle.py:42-48 | on scores that are not NaN the key follows "larger score first, equal scores by lowest index" except exactly on a -0 before a +0 |
| SelectKey.TiesLost | scripts/glm52_indexer_oracle.py:42-48 | a -0 at position 0 loses to a +0 at position 1, and one position past 2^20 two equal scores have one key |
| SelectKey.SortDescending | scripts/glm52_indexer_oracle.py:50-55 | the in-place sort ends in a descending permutation |
| SelectKey.PlowTopK | scripts/glm52_indexer_oracle.py:50-55 | the chosen set has min(k, n) positions and each beats every position left out |
| SelectKey.TopKUnique | scripts/glm52_indexer_oracle.py:50-55 | no other set of that size does |
| SelectKey.TopKByScore | scripts/glm52_indexer_oracle.py:42-55 | up to 2^20 positions a chosen position has a larger score, or an equal one at a lower index |
| Absorption.AbsorbedScore | scripts/glm52_prep.py:204-209 | (k_nope c)·(q_nope q) = c·(absorbed q) for every head, latent and query latent |
| Absorption.SameScores | scripts/kimi_k3_prep.py:451-463 | all scores of a step are unchanged by absorbing the key projection |
| Absorption.ValueOfLatent | scripts/glm52_prep.py:204-209 | projecting the attended latent is attending over projected latents |
| Absorption.FoldedBlock | scripts/glm52_prep_ofold.py:81-89 | one head's columns h*dk+d of the folded projection against its latent equal the projection against its values |
| Absorption.PreparedIsReference | scripts/glm52_prep.py:204-233 | for every head count and width the prepared weights compute the decode step of the checkpoint |
| Absorption.QAbsorbElement | scripts/glm52_prep.py:204-209 | row h*dk+l of the absorbed query is the sum over p of element (h*(qn+vd)+p, l) of kv_b times row h*(qn+dr)+p of q_b |
| Absorption.VAbsorbElement | scripts/glm52_prep.py:204-209 | row h*dk+l, column v of the absorbed value is element (h*(qn+vd)+qn+v, l) of kv_b |
| Absorption.OFoldElement | scripts/glm52_prep_ofold.py:81-89 | column h*dk+l of the folded projection is the sum over v of column h*vd+v of o_proj times element (h*(qn+vd)+qn+v, l) of kv_b |
| Absorption.KeyScoreElements | scripts/glm52_prep.py:204-209 | the reference score is built on those same rows of kv_b and q_b |
| Absorption.ValueOutElements | scripts/glm52_prep.py:204-209 | and the reference values on those same rows of kv_b |
| Rope.RotateInterleaved | scripts/glm52_indexer_oracle.py:164-181 | the two strided writes turn each pair (2j, 2j+1) by its angle: x cos - y sin, then x sin + y cos; everything past the pairs is kept |
| Rope.DeinterleavedElements | scripts/glm52_indexer_oracle.py:141-156 | the reference layout has x cos - y sin of pair j at j and x sin + y cos at half+j, and the tail as it was |
| Rope.WriteStrided | scripts/glm52_indexer_oracle.py:164-181 | a strided write changes the positions of its phase and no other |
| Rope.LayoutsPermuted | scripts/glm52_indexer_oracle.py:141-156 | the de-interleaved layout is the interleaved one under a position map |
| Rope.DevicePositionBijective | scripts/glm52_indexer_oracle.py:141-156 | that map is a bijection of the dimensions and does not depend on vector or position |
| Rope.SameDot | scripts/glm52_indexer_oracle.py:141-181 | for all queries, keys, positions and widths the two layouts give the same dot product |
| Rope.SameIndexScore | scripts/glm52_indexer_oracle.py:164-181 | hence the ReLU-weighted index score is the same |
| Rope.IndexScoreElements | scripts/glm52_indexer_oracle.py:155-157 | the index score is the scale times the sum over heads of weight and head scale times the part of the dot product above zero |
| BlockScale.DequantAt | scripts/glm52_prep.py:71-77 | element (r, d) is scaled by block (r/128, d/128) of the grid, ragged edges included |
| BlockScale.DequantConcat | scripts/glm52_prep_fp8_linear.py:102-119 | stacking two weights and their grids dequantises to the two stacked when the boundary row is a multiple of 128 |
| BlockScale.MisalignedStack | scripts/glm52_prep_fp8_linear.py:102-119 | for every other boundary there are weights for which it does not |
| BlockScale.StackingExactIff | scripts/glm52_prep_fp8_linear.py:102-119 | so stacking is exact for all weights if and only if the boundary is aligned |
| BlockScale.DequantSlice | scripts/glm52_prep_fp8_linear.py:145-147 | rows cut from an aligned row on, with the matching grid rows, dequantise to those rows of the whole |
| BlockScale.DequantPrefix | scripts/glm53_prep_blk.py:37-41 | the first b block rows of weight and grid dequantise to the first rows of the whole |
| Safetensors.STWriter.Add | scripts/glm52_prep.py:86-87 | one more entry registered, the others untouched |
| Safetensors.STWriter.Layout | scripts/glm52_prep.py:88-95 | first pass: the header with running offsets, and the total |
| Safetensors.STWriter.Stream | scripts/glm52_prep.py:96-104 | second pass: every producer in order, stopped exactly when one writes another length than declared |
| Safetensors.STWriter.Flush | scripts/kimi_k3_prep.py:185-199 | success exactly when every producer is honest and the header length fits its field; the file is length, padded header, data |
| Safetensors.PaddedAligned | scripts/glm52_prep.py:88-97 | the data starts at a multiple of 8, behind the header text and fewer than eight spaces |
| Safetensors.HeadRoundTrip | scripts/glm52_prep.py:88-97 | a written head parses back to its header whatever data follows |
| Safetensors.LittleEndianConcat | scripts/glm52_prep.py:88-97 | in a length field the first byte is the lowest |
| Safetensors.OffsetsTile | scripts/glm52_prep.py:88-95 | with distinct names the records tile the data in registration order without hole or overlap |
| Safetensors.ReadBack | scripts/glm52_prep.py:80-104 | reading any name from a flushed file gives exactly the bytes registered last under it, and nothing for other names |
| Safetensors.ShardOk | scripts/glm52_prep_full.py:41-52 | the resume check accepts exactly the files whose header parses and whose size is the largest declared end |
| Safetensors.CompleteIffDataLength | scripts/glm52_prep_full.py:41-52 | behind an intact header a shard is complete exactly when its data has the declared length |
| Safetensors.FlushedComplete | scripts/glm52_prep_full.py:41-64 | of all prefixes of a flushed file exactly the whole file is complete |
| Safetensors.ShardMatches | scripts/glm52_prep_fp8_linear.py:88-99 | the stricter check compares the header on disk with the planned one and the size with its total |
| Safetensors.MatchesIffSamePlan | scripts/glm52_prep_fp8_linear.py:88-99 | of all prefixes of all flushed files a plan is matched exactly by whole files with its header |
| Sidecar.TileEnd | scripts/glm53_prep_quark.py:66-80 | the walk over the sorted records finds the end of a tiling, or refuses exactly when there is none |
| Sidecar.ValidSidecar | scripts/glm53_prep_quark.py:103-108 | kept exactly when the file parses, its records tile it to the last byte, and it declares the wanted tensors and no others |
| Sidecar.VerdictOfAnyListing | scripts/glm53_prep_quark.py:66-80 | where no record is empty the verdict does not depend on the order of equal starts |
| Sidecar.EmptyRecordMisplaced | scripts/glm53_prep_quark.py:66-80 | with an empty record it can: one listed after the record that starts where it does breaks the tiling |
| Sidecar.ValidPartitions | scripts/glm53_prep_quark.py:66-108 | in a kept sidecar every data byte belongs to exactly one wanted tensor |
| Sidecar.ValidIffWhole | scripts/glm53_prep_quark.py:66-108 | of all prefixes an interrupted flush can leave, the check keeps exactly the whole file, zero-length tensors included, records of one start being in the order of the header text, which is that of registration |
| Shards.CopyRange | scripts/gemma4_fp8_vllm_ckpt.py:35-43 | the block-wise loop copies exactly the range, or fails exactly when the source ends early |
| Shards.WriteShard | scripts/glm52_prep_fp8_linear.py:51-85 | refused exactly for incompatible parts; otherwise every output tensor is the concatenation of its parts, in order, behind an aligned header |
| Shards.PartsInOrder | scripts/glm52_prep_fp8_linear.py:51-85 | the published bytes hold each part's bytes where the parts before it end |
| Shards.ConcatenationDeclared | scripts/glm52_prep_fp8_linear.py:51-85 | the written header declares the parts' type, the sum of their first dimensions and their other dimensions, and as many bytes as these rows take |
| Shards.PlannedShardOk | scripts/glm52_prep_fp8_linear.py:88-99 | false without a readable head, an error exactly for incompatible parts behind one, else accepted exactly for the planned header and size |
| Shards.ResumeIffWhole | scripts/glm52_prep_fp8_linear.py:51-99 | of all prefixes of a shard written from these records the check accepts exactly the whole file |
| Shards.RenameAll | scripts/gemma4_fp8_vllm_ckpt.py:58-77 | every record stands once under its bare name, none lost, none added; refused exactly for a name or shape the source refuses |
| Shards.BareInjective | scripts/gemma4_fp8_vllm_ckpt.py:74-77 | stripping the prefix never makes two names one |
| Shards.WriteFp8Shard | scripts/gemma4_fp8_vllm_ckpt.py:46-84 | success exactly when the data is contiguous from 0, every name can be renamed and the source holds the data |
| Shards.RewriteKeepsTensors | scripts/gemma4_fp8_vllm_ckpt.py:46-84 | every tensor reads back under its bare name, and no other, with the bytes it had |
| Shards.RenamedIff | scripts/gemma4_fp8_vllm_ckpt.py:58-77 | a weight keeps its record; a scale is taken exactly with one dimension and becomes a column |
| Shards.RenamedOnly | scripts/gemma4_fp8_vllm_ckpt.py:58-77 | nothing but a weight or a scale is taken |
| Shards.RewriteDeclares | scripts/gemma4_fp8_vllm_ckpt.py:46-84 | the written header declares a scale of n values with shape [n, 1] and every weight with its own shape, of the same type and bytes, so shapes that fit their bytes still do |
| FusedQkv.QkvaEntries | scripts/glm52_prep_fp8_linear.py:102-119 | accepted exactly for four records of matching shapes and types with the query rows a multiple of 128; published under the fused names, the weights of the two projections in that order and their grids in that order |
| FusedQkv.FusedIsStacked | scripts/glm52_prep_fp8_linear.py:102-119 | accepted records publish one weight that dequantises to the query rows followed by the key-value rows |
| FusedQkv.PrefixDeclared | scripts/glm53_prep_blk.py:37-41 | both cuts succeed and declare a weight of b block rows within the original |
| FusedQkv.PrefixIsExact | scripts/glm53_prep_blk.py:67-73 | the cut weight with its cut grid means the first rows of the original |
| MlaShards.AdmissibleIff | scripts/glm52_prep_fp8_linear.py:125-129 | admissible are positive dimensions of which each rank has an equal number of heads, whole blocks of query rows and of key-value rows, and both latents are whole blocks |
| MlaShards.RankRows | scripts/glm52_prep_fp8_linear.py:145-148 | a rank's own rows, dequantised with its grid rows, are its share of the whole weight dequantised |
| MlaShards.KeyElement | scripts/glm52_prep_fp8_linear.py:145-150 | key (h, d, p) is element (h*(qn+vd)+p, d) of the weight times the scale of its block |
| MlaShards.ValueElement | scripts/glm52_prep_fp8_linear.py:145-150 | value (h, v, d) is element (h*(qn+vd)+qn+v, d) times the scale of its block |
| MlaShards.RegroupShift | scripts/glm52_prep_fp8_linear.py:145-150 | skipping whole heads of the regrouped tensor skips exactly those heads' rows of the weight |
| MlaShards.RankGrouped | scripts/glm52_prep_fp8_linear.py:145-150 | a rank's rows regrouped by head are its share of the whole weight regrouped, for every number of ranks, heads and widths |
| MlaShards.RankShares | scripts/glm52_prep_fp8_linear.py:145-150 | a rank's keys and values are its shares of the whole weight's, so their concatenation is the same for every number of ranks |
| MlaShards.ScaledInRange | scripts/glm52_prep_fp8_linear.py:150-157 | in exact arithmetic no scaled value leaves ±448 and the clamp changes nothing |
| MlaShards.AppendRank | scripts/glm52_prep_fp8_linear.py:157-164 | appending a rank's quantisation keeps every earlier rank's part and adds its own; what the elements are is `MlaShards.RankElement` |
| MlaShards.MlaTensors | scripts/glm52_prep_fp8_linear.py:122-165 | success exactly for admissible dimensions, tensors of the expected dtype, shape and size, and positive multipliers; every element of wk and wv is then the element of the same place in the whole keys or values, times 448 over the largest magnitude of its rank's share, rounded and clamped, beside the reciprocal of that multiplier |
| MlaShards.RankElement | scripts/glm52_prep_fp8_linear.py:151-164 | element rank*n+x of the output is element rank*n+x of the input, quantised with the largest magnitude of that rank's share, whatever the two roundings |
| MlaShards.ExactElement | scripts/glm52_prep_fp8_linear.py:151-164 | without rounding, each value times its rank's scale is the element, and the largest magnitude of a share, if at least 1e-10, lands on 448 |
| MlaShards.KeyReadsBack | scripts/glm52_prep_fp8_linear.py:141-164 | without rounding, wk[head, d, p] times its rank's scale is the stored weight at row head*(qn+vd)+p, column d, times the scale of its block |
| MlaShards.ValueReadsBack | scripts/glm52_prep_fp8_linear.py:141-164 | likewise wv[head, v, d] at row head*(qn+vd)+qn+v |
| ExpertQuant.UnpackLossless | scripts/kimi_k27_prep.py:71-86 | the eight nibbles of a signed word determine it |
| ExpertQuant.NibblesAreResidue | scripts/kimi_k27_prep.py:71-86 | the first n nibbles, lowest first, make the word modulo 16^n, also for a negative word |
| ExpertQuant.Unpack | scripts/kimi_k27_prep.py:71-80 | the strided loop puts nibble i of packed column c into column 8c+i |
| ExpertQuant.DequantizeExpert | scripts/kimi_k27_prep.py:71-86 | each element is its nibble less 8 times its group scale |
| ExpertQuant.ToBlockFp8 | scripts/kimi_k27_prep.py:89-111 | every element is divided once, by the scale of the block it lies in, ragged edges included, and then cast, whatever the cast |
| ExpertQuant.QuotientInRange | scripts/kimi_k27_prep.py:89-111 | every quotient lies within ±448 and times its scale gives the element back |
| ExpertQuant.RangeIsUsed | scripts/kimi_k27_prep.py:89-111 | a block with a nonzero element puts one exactly on 448 |
| ExpertQuant.ZeroBlockScale | scripts/kimi_k27_prep.py:89-111 | a block of zeros has the scale 1 |
| ExpertQuant.FlatScaleIndex | scripts/kimi_k27_prep.py:26-30 | the flat index (n>>7)*ceil(K/128)+(k>>7) is in the grid and is that block |
| ExpertQuant.NearestIndex | scripts/kimi_k27_prep.py:142 | the first of the grid values nearest to the magnitude |
| ExpertQuant.ToMxfp4 | scripts/kimi_k27_prep.py:122-144 | every element is a grid value times the scale of its own row and group, with the sign of the input; no grid value is nearer to the scaled magnitude and no earlier one as near; ragged last group included |
| ExpertQuant.EncodedRounds | scripts/kimi_k27_prep.py:141-143 | every encoding is the first of the nearest grid values with its sign and scale |
| ExpertQuant.GridIsE2m1 | scripts/kimi_k27_prep.py:118 | code k of the grid is the value of the e2m1 format with two exponent bits and one mantissa bit |
| ExpertQuant.NeverSaturates | scripts/kimi_k27_prep.py:122-144 | no quotient exceeds the largest grid value |
| ExpertQuant.CeilLog2 | scripts/kimi_k27_prep.py:139 | the exponent is the ceiling of the logarithm, for every positive argument |
| ExpertQuant.TinyExponent | scripts/kimi_k27_prep.py:139 | the clamp at 1e-30 rounds up to 2^-99 |
| ExpertQuant.SmallestScaleIff | scripts/kimi_k27_prep.py:127-140 | the scale is the smallest power of two covering the group if and only if a sixth of the maximum exceeds 2^-100 |
| ExpertQuant.ClampedScaleNotSmallest | scripts/kimi_k27_prep.py:127-140 | a group with maximum 6 * 2^-100 gets the scale 2^-99, twice what it needs |
| ExpertQuant.EncodingError | scripts/kimi_k27_prep.py:122-144 | the error is at most the group scale, which is below a third of the maximum; a zero group is exact |
| ExpertQuant.Mxfp4Error | scripts/kimi_k27_prep.py:122-144 | every element of the matrix is off by at most the scale of its group; a group of zeros is kept, and unless the clamp applies the scale is below a third of the group maximum |
| ColumnSplit.SplitColumns | scripts/gemma4_dspark_rekey.py:116-125 | the join of row slices is the column block |
| ColumnSplit.BlockElement | scripts/gemma4_dspark_rekey.py:116-125 | element (r, c) of block j is element (r, j*w+c) of the whole, down to the two bytes |
| ColumnSplit.SplitPreservesMap | scripts/gemma4_dspark_rekey.py:116-125 | for every row and tap count the blocks' outputs add up to the projection of the concatenated taps |
| ColumnSplit.SplitPreProjection | scripts/gemma4_mtp_rekey.py:52-61 | refused exactly for another width; the two halves are blocks 0 and 1 |
| ColumnSplit.HalvesPreserveMap | scripts/gemma4_mtp_rekey.py:52-61 | the two halves applied to e and h add up to the projection of [e; h] |
| ColumnSplit.Layout | scripts/gemma4_dspark_rekey.py:65-81 | refused exactly for a non-BF16 tensor, another projection shape, or no projection; otherwise the planned outputs in order |
| ColumnSplit.PlansCarryNames | scripts/gemma4_dspark_rekey.py:65-81 | the planned outputs carry the published names in order |
| ColumnSplit.OutNamesDistinctIff | scripts/gemma4_dspark_rekey.py:65-81 | no output overwrites another if and only if no source tensor is already named like a block |
| ColumnSplit.BlockNameTaken | scripts/gemma4_dspark_rekey.py:65-81 | a checkpoint with `fc.0.weight` beside `fc.weight` publishes one name twice |
| ColumnSplit.DeclaredSizeIff | scripts/gemma4_dspark_rekey.py:104-108 | the declared size is the real one exactly when the dimensions past the second hold one element, or one of the first two is 0 |
| ColumnSplit.DeclaredSizeTooSmall | scripts/gemma4_dspark_rekey.py:104-108 | shape [2, 3, 4] is declared at 12 bytes for 48 |
| ColumnSplit.DeclaredSizeOfMatrix | scripts/gemma4_dspark_rekey.py:104-108 | for vectors and matrices it is |
| ColumnSplit.WritePlan | scripts/gemma4_dspark_rekey.py:101-125 | header and data in plan order behind a padded head, without a check of lengths; fails on a tensor without dimensions; what the written names read as is `ColumnSplit.RekeyReads` |
| ColumnSplit.DsparkReadsBack | scripts/gemma4_dspark_rekey.py:65-125 | from a checkpoint of vectors and matrices with distinct published names, every planned name reads back its planned data; in terms of the two files: `ColumnSplit.RekeyReads` |
| ColumnSplit.Rekey | scripts/gemma4_dspark_rekey.py:84-126 | parse, plan and write as one operation; a file is written only from a parsed head, and then as planned |
| ColumnSplit.PlainReads | scripts/gemma4_dspark_rekey.py:109-125 | reading a published plain name from the output is reading the source name from the source |
| ColumnSplit.BlockReads | scripts/gemma4_dspark_rekey.py:109-125 | reading block j is, row by row, the columns from j*hidden on of what reading `fc.weight` from the source gives |
| ColumnSplit.RekeyReads | scripts/gemma4_dspark_rekey.py:84-126 | both hold for every published name of a source whose tensors can be read and whose published names are distinct |
| TraceWalk.EnvelopeConserved | scripts/gemma31_dec_phase.py:98-113 | envelope = charges + idle gaps |
| TraceWalk.ChargesFillEnvelopeIff | scripts/gemma31_dec_phase.py:98-125 | the columns sum to the step exactly when no packet arrives after everything before it has ended |
| TraceWalk.ColumnsMissTheGap | scripts/gemma31_dec_phase.py:98-125 | two packets with a gap between them sum to 2 of 6 ticks |
| TraceWalk.ChargesCountTicks | scripts/gemma31_dec_phase.py:98-113 | the walk charges each running tick once, except those in a gap that a later packet turns out to cover |
| TraceWalk.ChargesAreCoveredIff | scripts/gemma31_dec_phase.py:98-113 | the charges are the running ticks if and only if no packet runs during a gap counted before an earlier packet |
| TraceWalk.LateCoverNotCharged | scripts/gemma31_dec_phase.py:98-113 | spans 0-1, 5-6, 2-4 in program order charge 2 of 4 running ticks |
| TraceWalk.CriticalPath | scripts/gemma31_dec_phase.py:98-120 | each operation is charged exactly its own packets' clipped and split costs; the columns and the idle gaps sum to the envelope, which contains every packet |
| TraceWalk.Book | scripts/gemma31_dec_phase.py:103-120 | one packet moves the frontier to its end, adds its charge to its own operation and leaves every other row alone |
| Tally.AddToAt | scripts/k3_trace_report.py:98-117 | adding to a table that starts at zero changes one key's entry and no other |
| Tally.AddToTotal | scripts/k3_trace_report.py:98-117 | every additive measure of the whole table grows by what is added |
| TraceWalk.FoldIsEnvelope | scripts/k3_trace_report.py:77-96 | folding the workgroups one by one gives the opcode of the first, their number, first arrival, first and last ready, first and last end |
| TraceWalk.FoldTrace | scripts/k3_trace_report.py:77-96 | one envelope for every instruction some workgroup reached, over exactly its workgroups |
| TraceWalk.EnvelopeOrdered | scripts/k3_trace_report.py:77-96 | workgroups that are ready before they end give a packet that is |
| TraceWalk.GateAndBodyIff | scripts/k3_trace_report.py:106-113 | gate + body is the charge exactly when the packet is ready by the end of the interval charged |
| TraceWalk.ResidualIsIdle | scripts/k3_trace_report.py:98-126 | for packets ready between arrival and end, what gates and bodies leave of the span is exactly the idle gaps |
| TraceWalk.BookRow | scripts/k3_trace_report.py:109-113 | one packet is added to the row of its opcode and width and to no other (what it adds, in ticks: `TraceWalk.PacketTicks`) |
| TraceWalk.BookHop | scripts/k3_trace_report.py:114-117 | its gate is added to the transition from the width before it, except for the first packet (in ticks: `TraceWalk.PacketTicks`) |
| TraceWalk.PacketTicks | scripts/k3_trace_report.py:105-113 | the gate of a packet is the number of ticks from the start of its interval to ready, its body that from the later of start and ready to the end |
| TraceWalk.StartsAreStarts | scripts/k3_trace_report.py:103-105 | the interval of a packet starts at its arrival or at the latest end before it, whichever is later |
| TraceWalk.WalkInTicks | scripts/k3_trace_report.py:98-126 | the gate total counts those waiting ticks and the body total those running ticks, packet by packet; a row counts the packets of its opcode and width and their ticks, a transition those between its two widths |
| TraceWalk.ChainWalk | scripts/k3_trace_report.py:98-126 | gates, bodies, rows and transitions count waiting and running ticks packet by packet from given starts; rows and transitions partition the totals; when every packet is ready between its arrival and its end, the printed residual is the idle gaps |
| Statistics.SortOrders | scripts/ledger_append.py:49-57 | sorting gives an ascending permutation |
| Statistics.StatsSane | scripts/ledger_append.py:49-57 | the deviation is not negative, and the 95th percentile is a sample no smaller than the median |
| Statistics.MedianIff | scripts/ledger_append.py:49-57 | twice the median is the sum of the entries next to the middle of the samples in ascending order, and no other value is the median |
| Statistics.MadIff | scripts/gemma4_h100_kernel_tuner.py:671-678 | the deviation is the median of the distances from the median |
| Statistics.Round95Iff | scripts/ledger_append.py:56 | the place of the 95th percentile is the whole number nearest to 95 hundredths of the count, the even one of two |
| Statistics.StatsAre | scripts/ledger_append.py:49-57 | what is filed: the count, the median, the deviation, and the sample at that place in ascending order |
| Ledger.CheckRef | scripts/ledger_append.py:84-94 | a reference passes exactly when it names a known entry of equal job, hardware, metric and rung digest |
| Ledger.CheckEntry | scripts/ledger_append.py:60-98 | the tests in source order accept exactly the admissible entries and fill in statistics and date |
| Ledger.FilledIs | scripts/ledger_append.py:74-98 | what is written is the entry with its own date or today's, with the statistics of its samples if it has any, and otherwise as it was |
| Ledger.DatesDoNotDecide | scripts/ledger_append.py:60-98 | whether a batch is accepted, and what it leaves besides the dates, does not depend on the dates its checks read |
| Ledger.CheckDoes | scripts/ledger_append.py:60-98 | the check itself has that property |
| Ledger.GoodMeans | scripts/ledger_append.py:60-126 | in a good ledger ids are unique and a treatment names two strictly earlier comparable entries; others name none |
| Ledger.ReferencesAcyclic | scripts/ledger_append.py:84-94 | along any chain of references the position in the file strictly falls |
| Ledger.LedgerFile.constructor | scripts/ledger_append.py:101-109 | an absent file is an empty ledger |
| Ledger.LedgerFile.Read | scripts/ledger_append.py:101-109 | reading gives the entries by id |
| Ledger.LedgerFile.Append | scripts/ledger_append.py:112-126 | either the whole checked batch is written behind what was there, or nothing is |
| Ledger.BatchKeepsGood | scripts/ledger_append.py:112-126 | appending an accepted batch keeps the ledger good |
| Ledger.StepOnFile | scripts/ledger_append.py:112-126 | a step leaves the file or appends all of a checked batch; a writer that leaves without writing had an empty batch or one refused on any dates |
| Ledger.StepKeepsInv | scripts/ledger_append.py:112-126 | any step of any lock-read-check-write appender, each check on the date its clock then shows, keeps the invariant and only extends the file |
| Ledger.EveryRunGood | scripts/ledger_append.py:112-126 | in every interleaving of any number of appenders, over any dates, every state is good and each earlier file is a prefix of each later one |
| TrialSchedule.UniqueIffDistinct | scripts/gemma4_h100_kernel_tuner.py:374-416 | comparing the size of the set with the length of the list finds every duplicate and nothing else |
| TrialSchedule.Reference | scripts/gemma4_h100_kernel_tuner.py:390-416 | an admitted profile has exactly one reference |
| TrialSchedule.CandidateExists | scripts/gemma4_h100_kernel_tuner.py:628-640 | an admitted profile has a candidate, so the rotation never divides by zero |
| TrialSchedule.RotatedOnce | scripts/gemma4_h100_kernel_tuner.py:636-640 | the rotated order holds every candidate exactly once |
| TrialSchedule.RotatedAt | scripts/gemma4_h100_kernel_tuner.py:636-640 | position i of trial t holds the candidate t places further on, counted around |
| TrialSchedule.RotationBalanced | scripts/gemma4_h100_kernel_tuner.py:636-640 | over as many trials as there are candidates every candidate takes every position in exactly one trial |
| TrialSchedule.ArmsGiveTrial | scripts/gemma4_h100_kernel_tuner.py:636-668 | the arms of a trial give the reference its two anchors in order and every candidate one record |
| TrialSchedule.RunTrial | scripts/gemma4_h100_kernel_tuner.py:631-668 | one profile's trial completes exactly when all its reports are accepted; its variants' records grow by that trial and no other profile's change |
| TrialSchedule.BenchmarkAll | scripts/gemma4_h100_kernel_tuner.py:628-668 | the whole schedule completes exactly when every report is accepted; every variant then holds its records trial by trial |
| TrialSchedule.ReferenceTrials | scripts/gemma4_h100_kernel_tuner.py:685-696 | accepted exactly for 2 anchors per trial, and then paired before/after |
| TrialSchedule.ReferenceHistory | scripts/gemma4_h100_kernel_tuner.py:628-696 | a reference's history holds each trial's two anchors exactly once |
| TrialSchedule.CompletedSchedulePasses | scripts/gemma4_h100_kernel_tuner.py:628-801 | whatever the benchmark completes passes every schedule check made when winners are chosen |
| TrialSchedule.ReferenceOrder | scripts/gemma4_h100_kernel_tuner.py:628-668 | a reference's records in order: of each trial the anchor before and the anchor after |
| WinnerChoice.BuildRows | scripts/gemma4_h100_kernel_tuner.py:764-913 | one row per variant, refused exactly when the anchors or a candidate's trials are missing |
| WinnerChoice.Best | scripts/gemma4_h100_kernel_tuner.py:914-917 | the first of the qualified rows with the smallest median |
| WinnerChoice.SelectWinner | scripts/gemma4_h100_kernel_tuner.py:764-917 | a winner exists whenever the schedule is complete |
| WinnerChoice.SelectWinners | scripts/gemma4_h100_kernel_tuner.py:746-948 | completes exactly for sound gates and complete schedules, with one choice per profile in order |
| WinnerChoice.WinnerCleared | scripts/gemma4_h100_kernel_tuner.py:836-917 | the winner's median never exceeds the reference's; a winning candidate cleared the speedup, noise and spill gates |
| WinnerChoice.GroupsConserve | scripts/gemma4_h100_kernel_tuner.py:951-975 | grouping neither loses nor repeats a profile |
| WinnerChoice.DivisibleIffWeighed | scripts/gemma4_h100_kernel_tuner.py:951-975 | the speedup of every group is defined exactly when every group has a profile that occurs |
| WinnerChoice.RungRollup | scripts/gemma4_h100_kernel_tuner.py:951-981 | fails exactly on a group without weight; otherwise one row per group, largest savings first |
| WinnerChoice.RollupNeverSlower | scripts/gemma4_h100_kernel_tuner.py:951-981 | every row has speedup >= 1 and savings >= 0 |
| WinnerChoice.RollupConserves | scripts/gemma4_h100_kernel_tuner.py:951-981 | the rows' savings add up to the profiles' savings |
| WinnerChoice.RollupRowIs | scripts/gemma4_h100_kernel_tuner.py:951-981 | a row counts the choices of its group and adds up the medians of reference and winner and the noise floors, each times its occurrences; speedup times winner and savings plus winner are the reference |
| WinnerChoice.RollupGroups | scripts/gemma4_h100_kernel_tuner.py:951-981 | there is exactly one row for every group that occurs |
| KernelTuner.ReportAcceptedIff | scripts/gemma4_h100_kernel_tuner.py:537-585 | a report is accepted exactly for this profile, variant, trial and arm, isolated and correct, hot or cold, with positive clocks and power, counters within limits, 10 warm-ups and 50 positive samples; its reading is then kept |
| KernelTuner.JudgingIsFair | scripts/gemma4_h100_kernel_tuner.py:764-855 | the tuner's judgement always qualifies the reference, and never a candidate below its gates; every median is positive and no noise floor negative |
| KernelTuner.CandidateQualifies | scripts/gemma4_h100_kernel_tuner.py:764-855 | a candidate's row has the medians of its trial medians, of the ratios and differences to the anchors' means and of the anchor noise; it qualifies if and only if these reach the minimum speedup and exceed the noise, no trial is slower than allowed, all its samples and all the anchors' are steady, caches and both clocks agree with both anchors in every trial, every expected counter moved, and it is free of spills or spills are allowed |
| KernelTuner.CounterIff | scripts/gemma4_h100_kernel_tuner.py:699-743 | a counter passes if and only if every record has it, at least three trials moved the predicted way, and the medians are far enough apart; from zero every increase is and no decrease |
| KernelTuner.FiledPairs | scripts/gemma4_h100_kernel_tuner.py:685-696 | pairing by trial and arm finds the anchors that were filed, in order |
| KernelTuner.RowsTold | scripts/gemma4_h100_kernel_tuner.py:764-913 | every row judged in a completed run is determined by what the benchmark commands reported for that variant and for the reference |
| KernelVerify.VerifyAll | scripts/gemma4_h100_kernel_tuner.py:526-626 | succeeds exactly when every variant verifies on every seed and the variants of a profile verified one input against one reference |
| KernelVerify.OneEachIff | scripts/gemma4_h100_kernel_tuner.py:587-626 | the recorded identities are single-valued exactly when the variants of every profile agree on every seed |
| KernelTuner.RunTuner | scripts/gemma4_h100_kernel_tuner.py:984-1016 | a whole run completes exactly for variants that verify and agree, sound gates, accepted reports and groups that occur; its summary then has the properties above, and every choice is the first of the smallest medians among the rows that qualify, all rows being told by the reports (`KernelTuner.RowsTold`) |
| AuditBless.CoverageHeldIff | scripts/asm_audit.py:464-478 | an object with merge arms passes the coverage rule exactly when its head dimensions are 128, 256 and 512, with 64 unless it was built with FP8 keys and values |
| AuditBless.CoverageNames | scripts/asm_audit.py:464-478 | a failure lists exactly the head dimensions missing, or exactly those too many, and an object without merge arms has none |
| AuditBless.MacroFailsIff | scripts/asm_audit.py:403-422 | a define fails exactly when its macro is geometry and the object has no marker of it, or one that shows another number than its text |
| AuditBless.MacrosHeldIff | scripts/asm_audit.py:403-422 | no define fails exactly when every geometry macro has a marker and every numeric text is the number shown |
| AuditBless.BodyNotedIff | scripts/asm_audit.py:485-500 | a body is named exactly from 64 permutes and 2.0 a matrix instruction, or from 256 narrow reads and 1.5 |
| AuditBless.RowHeldIff | scripts/asm_audit.py:424-483 | a baseline row adds no failure exactly when registers, LDS, occupancy, geometry and arms are equal and spill has not risen, in all and per kernel |
| AuditBless.DriftIff | scripts/asm_audit.py:397-483 | an object fails only by the rules that need no baseline exactly when it holds the row it is compared with, or is compared with none |
| AuditBless.LieFailsIff | scripts/asm_audit.py:443-456 | an under-reported spill is a failure if and only if a matching row records none or less for that kernel |
| AuditBless.UnrecordedLiePasses | scripts/asm_audit.py:443-456 | with nothing recorded an object that under-reports passes with an advisory |
| AuditBless.Examine | scripts/asm_audit.py:397-500 | the six checks in order report exactly the failures and advisories of the definition |
| AuditBless.Contract | scripts/asm_audit.py:397-505 | strict mode turns exactly the advisories into failures |
| AuditBless.Intern | scripts/asm_audit.py:566-575 | every stem's profile name leads back to its own geometry, names are shared exactly by equal geometries, none is idle, and they are p0, p1 and so on |
| AuditBless.Bless | scripts/asm_audit.py:546-580 | the rows and profiles are rewritten from the objects and the rest of the baseline is kept |
| AuditBless.RecordedFields | scripts/asm_audit.py:383-394 | a recorded row holds every figure of its object under its own field, its defines and its geometry |
| AuditBless.BlessedDriftIff | scripts/asm_audit.py:546-585 | against a blessed baseline an object fails more than its baseline-free rules exactly when it drifted from the kept object of its stem |
| AuditBless.BlessIsFixpoint | scripts/asm_audit.py:546-585 | with distinct stems the blessed objects fail only by the baseline-free rules, and only their own reports advise |
| AuditBless.RunContract | scripts/asm_audit.py:508-603 | exit status 0 exactly when blessing, or when the roster is clean and no object fails or, in strict mode, advises; another architecture always refuses; only blessing changes the baseline |
| AuditBless.BlessedContractIff | scripts/asm_audit.py:508-603 | against a blessed baseline objects of distinct stems pass exactly when the roster is clean and no rule that needs no baseline fails, in strict mode also with none of its own reports |
| AuditBless.BlessThenCheck | scripts/asm_audit.py:508-603 | blessing and then checking the same objects exits 0 exactly under that condition and with the right architecture |
| PacketDigest.SortRanges | scripts/packet_sections.py:26-30 | the ranges end up sorted, each as often as before |
| PacketDigest.SweepStep | scripts/packet_sections.py:29-35 | one swept range feeds the gap before it and nothing of itself |
| PacketDigest.FeedDevice | scripts/packet_sections.py:26-37 | the device part is the header without bytes 40..48, then exactly the uncovered bytes from 64 on, for any overlap or order |
| PacketDigest.Parse | scripts/packet_sections.py:11-37 | fails exactly on a directory with a name that does not decode; otherwise the digest of a packet with a directory is its device part and, by name, the bytes and the printed size of its sections, a repeated name keeping the last; without one, the whole file |
| PacketDigest.DirectoryReadsBack | scripts/packet_sections.py:11-28 | a directory written field by field (four bytes of kind, four of padding, eight of offset, eight of size, a name filled up with zeros) reads back as the same place, number of entries, ranges and names |
| PacketDigest.DigestNames | scripts/packet_sections.py:17-25 | the digest of such a packet names exactly the entries' names |
| PacketDigest.DigestSection | scripts/packet_sections.py:17-25 | under each name it holds the bytes from offset to offset + size of the last entry of that name |
| PacketDigest.DigestDevice | scripts/packet_sections.py:26-37 | and its device part is the header without bytes 40..48 and what no entry and not the directory covers |
| PacketDigest.DeviceUnchangedIff | scripts/packet_sections.py:11-37 | overwriting one section in place changes the device part exactly when header bytes changed |
| PacketDigest.OverwriteIsLocal | scripts/packet_sections.py:2-37 | overwriting a payload in place keeps every name, and the digest of each name whose last entry avoids it; past the header the device part too |
| PacketDigest.ReplacementIsLocal | scripts/packet_sections.py:2-37 | two packets that differ only in one section, of any two sizes, have the same device digest and the same digest under every other name |

## Left out

- JSON text: a parameter, any printer and parser that recover a header from its blob followed by spaces; `__metadata__` entries, which the scripts drop, are taken to be gone.
- SHA-256: the digest is the bytes the hash is fed.
- Floating rounding inside matrix products and scalings: the folds are stated over the reals, as the scripts note that they reassociate; rounding to bf16 in `MlaShards` and the e4m3 cast are abstract functions.
- NaN payloads: `f32_to_bf16` maps every NaN to one pattern, and lemmas about values exclude NaNs; the selection key orders NaN patterns as if the values went on beyond the infinities.
- TokenizerFile.IdsAgree: covers one pre-split piece without special tokens; the regular-expression split, the special-token extraction and the reading of the rank file are library behaviour.
- Bf16.WidenBytes: the rest of `gemma4_fp8_hub_rekey.py`, its rename and offset plan, follows the writers already modelled.
- Absorption.PreparedIsReference: takes the attention weights as one abstract function of the scores, so the softmax itself is not modelled.
- SelectKey.SortDescending: insertion into the sorted part stands for the library's sort; the result is determined by its contract.
- Shards.WriteShard: a sort of the parts and of names is the library's; the order of the entries is the one given. `write_bf16_shard` repeats the copying loop over several files and is not modelled.
- ColumnSplit.Rekey: takes the head already parsed, and the names of the head as any listing; the config check before it and the metadata record are left out.
- Statistics.Round95Iff: 0.95 times the count is taken exactly, where the script multiplies in floating point.
- ColumnSplit.SplitPreProjection: `gemma4_mtp_rekey.py` keeps its outputs in a dictionary and writes them as `gemma4_dspark_rekey.py` does; that file is not modelled.
- Shards.WriteFp8Shard: the error for two tensors collapsing into one name cannot occur (`Shards.BareInjective`) and is not part of the model.
- Sidecar.ValidSidecar: the stable sort is a parameter, any listing of the parsed names by start offset; `build_layer`, `expected_layout` and the aliasing of FP8 outputs in `glm53_prep_quark.py` reuse operations modelled elsewhere.
- ExpertQuant.ToMxfp4: also returns the scales of the groups, so that its contract can name them.
- MlaShards.MlaTensors: reals are finite, so the tests for non-finite scales and values have no counterpart.
- Negative offsets, negative sizes and other values JSON could hold outside the natural numbers.
- Crashes in the middle of a write, the rename that publishes a shard, file locks as an operating-system service: a flush is interrupted at any byte, and the ledger's lock admits one writer.
- Ledger.CheckEntry: the text of dates, rungs and units is only tested for presence, and an exception is a refusal without its message.
- TraceWalk.ChainWalk: keeps ticks rather than microseconds; the percentiles, the sorting of the printed rows and the straggler and convergence sums over wide packets are left out.
- TraceWalk.CriticalPath: the phase averages and other tables of `gemma31_dec_phase.py` are not modelled.
- KernelTuner.RunTuner: subprocesses and the descriptive fields of the summary are left out; timings are reals; the weighted prediction is not summed.
- WinnerChoice.RungRollup: rows of equal savings keep the order of first appearance; the source breaks such ties by sorting the group keys, which raises when a missing and a present KV length meet in otherwise equal keys.
- AuditBless.Examine: failures and advisories are lists in no particular order within one check, where the source sorts names; disassembly, symbol tables and the knobs found in headers are inputs.
- AuditBless.RunContract: in strict mode only the advisories of the contract are promoted, as in the source; the note that no defines were given, the printed table and the grouping of notes are left out.
- `Cfg.reconcile`, index scans, `gemma4_ladder_campaign.py`, `check_recipe.py`: record validation whose claims follow from single branches.
- The Rust crates, GPU kernels, Lean proofs, recipes, and the scripts that drive Torch, vLLM, CUTLASS or HTTP services are not part of this model.
