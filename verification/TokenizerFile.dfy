/**
  `kimi_k3_tokenizer.py`, `build`: the vocabulary and merge list it writes, and what a byte-level BPE
  loaded from that file does with one pre-split piece of text.
 */
module TokenizerFile {
  import opened Common
  import opened Bpe
  import opened ByteKeys
  import opened Tokenizer

  datatype Model = Model(vocab: map<string, nat>, merges: Merges)

  function BaseVocab(order: seq<Token>): map<string, nat> {
    if order == [] then map[]
    else
      var last := |order| - 1;
      BaseVocab(order[..last])[EncKey(order[last]) := last]
  }

  /** Special tokens take the ids from `base` up and overwrite any vocabulary entry of the same text. */
  function AddSpecials(vocab: map<string, nat>, base: nat, contents: seq<string>): map<string, nat> {
    if contents == [] then vocab
    else
      var last := |contents| - 1;
      AddSpecials(vocab, base, contents[..last])[contents[last] := base + last]
  }

  function Converted(ranks: Ranks, order: seq<Token>, contents: seq<string>): Model
    requires forall t :: t in order ==> t in ranks
  {
    Model(AddSpecials(BaseVocab(order), |order|, contents), MergeList(ranks, order))
  }

  ghost predicate IsConversion(ranks: Ranks, contents: seq<string>, model: Model) {
    exists order :: RankOrder(ranks, order) && model == Converted(ranks, order, contents)
  }

  method NumberTokens(order: seq<Token>) returns (vocab: map<string, nat>)
    ensures vocab == BaseVocab(order)
  {
    vocab := map[];
    for rank := 0 to |order|
      invariant vocab == BaseVocab(order[..rank])
    {
      assert order[..rank + 1][..rank] == order[..rank];
      vocab := vocab[EncKey(order[rank]) := rank];
    }
    assert order[..|order|] == order;
  }

  method NumberSpecials(base: nat, contents: seq<string>, vocab: map<string, nat>)
    returns (all: map<string, nat>)
    ensures all == AddSpecials(vocab, base, contents)
  {
    all := vocab;
    for k := 0 to |contents|
      invariant all == AddSpecials(vocab, base, contents[..k])
    {
      assert contents[..k + 1][..k] == contents[..k];
      all := all[contents[k] := base + k];
    }
    assert contents[..|contents|] == contents;
  }

  /** The keys of the two parts that a token's bytes are joined into below its own rank. */
  method RecoverPair(ranks: Ranks, token: Token, rank: nat) returns (pair: Option<(string, string)>)
    requires token in ranks && rank == ranks[token]
    ensures pair == RecoveredPair(ranks, token)
  {
    var parts := RecoverMerge(ranks, token, rank);
    PairOfParts(ranks, token, parts);
    pair := if |parts| == 2 then Some((EncKey(parts[0]), EncKey(parts[1]))) else None;
  }

  /** One pair per multi-byte token, in rank order; `None` if some token does not replay to two parts. */
  method RecoverAll(ranks: Ranks, order: seq<Token>) returns (merges: Option<Merges>)
    requires RankOrder(ranks, order)
    ensures merges.Some? <==> TwoParts(ranks)
    ensures merges.Some? ==> merges.value == MergeList(ranks, order)
  {
    var list: Merges := [];
    ghost var entries := PairsByRank(ranks, order);
    TwoPartsByRank(ranks, order, entries);
    for rank := 0 to |order|
      invariant list == Somes(entries[..rank])
      invariant Replayed(order, entries, rank)
    {
      var token := order[rank];
      SomesAppend(entries, rank);
      assert entries[rank] == RecoveredPair(ranks, token);
      if |token| == 1 {
        SingleByteHasNoPair(ranks, token);
      } else {
        var pair := RecoverPair(ranks, token, rank);
        if pair.None? {
          return None;
        }
        list := list + [pair.value];
      }
      ReplayedNext(order, entries, rank);
    }
    assert entries[..|order|] == entries;
    merges := Some(list);
  }

  /** Each of the first `n` tokens is one byte or has its pair. */
  ghost predicate Replayed(order: seq<Token>, entries: seq<Option<(string, string)>>, n: nat)
    requires n <= |order| == |entries|
  {
    forall k :: 0 <= k < n ==> |order[k]| == 1 || entries[k].Some?
  }

  lemma ReplayedNext(order: seq<Token>, entries: seq<Option<(string, string)>>, n: nat)
    requires n < |order| == |entries| && Replayed(order, entries, n) && (|order[n]| == 1 || entries[n].Some?)
    ensures Replayed(order, entries, n + 1)
  {
  }

  lemma PairOfParts(ranks: Ranks, token: Token, parts: Parts<Byte>)
    requires token in ranks && parts == Recover(ranks, token, ranks[token])
    ensures RecoveredPair(ranks, token) == if |parts| == 2 then Some((EncKey(parts[0]), EncKey(parts[1]))) else None
  {
  }

  lemma TwoPartsByRank(ranks: Ranks, order: seq<Token>, entries: seq<Option<(string, string)>>)
    requires RankOrder(ranks, order) && entries == PairsByRank(ranks, order)
    ensures TwoParts(ranks) <==> Replayed(order, entries, |order|)
    ensures forall k :: 0 <= k < |order| ==> entries[k] == RecoveredPair(ranks, order[k])
  {
    forall k | 0 <= k < |order|
      ensures entries[k] == RecoveredPair(ranks, order[k]) && ranks[order[k]] == k
    {
    }
    if Replayed(order, entries, |order|) {
      forall t | t in ranks && |t| != 1
        ensures |Recover(ranks, t, ranks[t])| == 2
      {
        assert order[ranks[t]] == t;
      }
    }
  }

  lemma SomesAppend<T>(entries: seq<Option<T>>, n: nat)
    requires n < |entries|
    ensures Somes(entries[..n + 1]) == Somes(entries[..n]) + if entries[n].Some? then [entries[n].value] else []
  {
    assert entries[..n + 1][..n] == entries[..n];
  }

  /** Accepts exactly the dense tables whose every multi-byte token replays to two parts. */
  method Build(ranks: Ranks, contents: seq<string>) returns (r: Result<Model>)
    ensures r.Success? <==> Dense(ranks) && TwoParts(ranks)
    ensures r.Success? <==> Dense(ranks) && forall t :: t in ranks && |t| != 1 ==> ReplaysToPair(ranks, t)
    ensures r.Success? ==> IsConversion(ranks, contents, r.value)
  {
    TwoPartsIff(ranks);
    var byRank := SortByRank(ranks);
    if byRank.None? {
      return Failure("ranks are not dense over 0..n-1");
    }
    var order := byRank.value;
    var vocab := NumberTokens(order);
    var merges := RecoverAll(ranks, order);
    if merges.None? {
      return Failure("a token does not replay to two parts");
    }
    vocab := NumberSpecials(|order|, contents, vocab);
    r := Success(Model(vocab, merges.value));
    assert r.value == Converted(ranks, order, contents);
  }

  /** The table of "a", "b" and "ab" is accepted, and "ab" is its one merge. */
  lemma SmallTable()
    ensures var ranks, order: seq<Token> := map[[97] := 0, [98] := 1, [97, 98] := 2], [[97], [98], [97, 98]];
            Dense(ranks) && RankOrder(ranks, order) && TwoParts(ranks) &&
            MergeList(ranks, order) == [(EncKey([97]), EncKey([98]))]
  {
    var ranks: Ranks, order: seq<Token> := map[[97] := 0, [98] := 1, [97, 98] := 2], [[97], [98], [97, 98]];
    SmallOrder();
    SmallReplay();
    ListedDense(ranks, order);
    assert TwoParts(ranks) by {
      forall t | t in ranks && |t| != 1
        ensures |Recover(ranks, t, ranks[t])| == 2
      {
        assert t == [97, 98];
      }
    }
    assert order[0] == [97] && order[1] == [98] && order[2] == [97, 98];
    SingleByteHasNoPair(ranks, [97]);
    SingleByteHasNoPair(ranks, [98]);
    var pair := (EncKey([97]), EncKey([98]));
    assert PairsByRank(ranks, order) == [None, None, Some(pair)];
    SomesOfThree(pair);
  }

  lemma SomesOfThree<T>(x: T)
    ensures Somes([None, None, Some(x)]) == [x]
  {
    var none: seq<Option<T>>, one: seq<Option<T>>, two: seq<Option<T>> := [], [None], [None, None];
    assert one[..0] == none && two[..1] == one && [None, None, Some(x)][..2] == two;
    assert Somes(one) == [] && Somes(two) == [];
  }

  lemma SmallOrder()
    ensures var ranks, order: seq<Token> := map[[97] := 0, [98] := 1, [97, 98] := 2], [[97], [98], [97, 98]];
            RankOrder(ranks, order)
  {
    assert [97][0] != [98][0] && |[97, 98]| == 2;
  }

  lemma SmallReplay()
    ensures var ranks: Ranks := map[[97] := 0, [98] := 1, [97, 98] := 2];
            ranks[[97, 98]] == 2 && Recover(ranks, [97, 98], 2) == [[97], [98]]
  {
    var ranks: Ranks := map[[97] := 0, [98] := 1, [97, 98] := 2];
    var parts: Parts<Byte> := [[97], [98]];
    assert Singles([97, 98]) == parts && parts[0] + parts[1] == [97, 98];
    assert [97][0] != [98][0] && |[97, 98]| == 2;
    JoinableAt(ranks, Some(2), parts, 0);
    assert forall j :: At(Below(ranks, Some(2)), parts, j).None?;
  }

  lemma ListedDense(ranks: Ranks, order: seq<Token>)
    requires RankOrder(ranks, order)
    ensures Dense(ranks)
  {
    forall r: nat | r < |ranks|
      ensures HasRank(ranks, r)
    {
      assert order[r] in ranks && ranks[order[r]] == r;
    }
  }

  lemma SingleByteHasNoPair(ranks: Ranks, token: Token)
    requires token in ranks && |token| == 1
    ensures RecoveredPair(ranks, token) == None
  {
    var p := RankPriority(ranks);
    CappedRunIsPrefix(p, ranks[token], Singles(token));
    ReachesShorter(p, Singles(token), Recover(ranks, token, ranks[token]));
  }

  // --- the two encoders, from bytes to ids --------------------------------

  function Ids<X(==)>(vocab: map<seq<X>, nat>, parts: Parts<X>): Option<seq<nat>> {
    if forall p :: p in parts ==> p in vocab
    then Some(seq(|parts|, i requires 0 <= i < |parts| => vocab[parts[i]]))
    else None
  }

  /** tiktoken on one piece: a whole-piece hit first, else rank-driven joining; `None` on an unknown byte. */
  function TiktokenIds(ranks: Ranks, s: Token): Option<seq<nat>> {
    if s in ranks then Some([ranks[s]]) else Ids(ranks, Run(RankPriority(ranks), Singles(s)))
  }

  /** A merge-list BPE without an unknown token drops the characters it has no entry for. */
  function KnownChars(vocab: map<string, nat>, text: string): string {
    if text == "" then ""
    else (if [text[0]] in vocab then [text[0]] else "") + KnownChars(vocab, text[1..])
  }

  function ModelIds(model: Model, text: string): Option<seq<nat>> {
    Ids(model.vocab, Run(MergePriority(model.merges), Singles(KnownChars(model.vocab, text))))
  }

  ghost predicate BytesKnown(ranks: Ranks, s: Token) {
    forall i :: 0 <= i < |s| ==> [s[i]] in ranks
  }

  ghost predicate AllBytesKnown(ranks: Ranks) {
    forall b: Byte :: [b] in ranks
  }

  /** No special token is spelled like the key of a table token. */
  ghost predicate SpecialsDistinct(ranks: Ranks, contents: seq<string>) {
    forall t, k :: t in ranks && 0 <= k < |contents| ==> contents[k] != EncKey(t)
  }

  lemma {:induction false} BaseVocabEntry(ranks: Ranks, order: seq<Token>, n: nat, t: Token)
    requires RankOrder(ranks, order) && n <= |order| && t in ranks
    ensures EncKey(t) in BaseVocab(order[..n]) <==> ranks[t] < n
    ensures ranks[t] < n ==> BaseVocab(order[..n])[EncKey(t)] == ranks[t]
  {
    if n > 0 {
      assert order[..n][..n - 1] == order[..n - 1];
      BaseVocabEntry(ranks, order, n - 1, t);
      if EncKey(order[n - 1]) == EncKey(t) {
        EncKeyInjective(order[n - 1], t);
      }
    }
  }

  lemma {:induction false} SpecialsEntry(vocab: map<string, nat>, base: nat, contents: seq<string>, key: string)
    ensures var all := AddSpecials(vocab, base, contents);
            if key in contents then key in all && base <= all[key]
            else (key in all <==> key in vocab) && (key in all ==> all[key] == vocab[key])
  {
    if contents != [] {
      var last := |contents| - 1;
      SpecialsEntry(vocab, base, contents[..last], key);
      assert contents == contents[..last] + [contents[last]];
    }
  }

  lemma VocabEntry(ranks: Ranks, order: seq<Token>, contents: seq<string>, t: Token)
    requires RankOrder(ranks, order) && t in ranks
    ensures var vocab := Converted(ranks, order, contents).vocab;
            EncKey(t) in vocab &&
            if EncKey(t) in contents then |order| <= vocab[EncKey(t)] else vocab[EncKey(t)] == ranks[t]
  {
    assert order[..|order|] == order;
    BaseVocabEntry(ranks, order, |order|, t);
    SpecialsEntry(BaseVocab(order), |order|, contents, EncKey(t));
  }

  lemma {:induction false} AllCharsKept(vocab: map<string, nat>, text: string)
    requires forall i :: 0 <= i < |text| ==> [text[i]] in vocab
    ensures KnownChars(vocab, text) == text
  {
    if text != "" {
      AllCharsKept(vocab, text[1..]);
    }
  }

  /** Whatever is joined is in the table, so from known bytes only table tokens arise. */
  lemma {:induction false} RunStaysInTable(ranks: Ranks, parts: Parts<Byte>)
    requires forall i :: 0 <= i < |parts| ==> parts[i] in ranks
    ensures forall p :: p in Run(RankPriority(ranks), parts) ==> p in ranks
    decreases |parts|
  {
    var best := Best(RankPriority(ranks), parts);
    if best.Some? {
      assert At(RankPriority(ranks), parts, best.value).Some?;
      RunStaysInTable(ranks, Join(parts, best.value));
    }
  }

  lemma TextKept(ranks: Ranks, order: seq<Token>, contents: seq<string>, s: Token)
    requires RankOrder(ranks, order) && BytesKnown(ranks, s)
    ensures KnownChars(Converted(ranks, order, contents).vocab, EncKey(s)) == EncKey(s)
  {
    var vocab := Converted(ranks, order, contents).vocab;
    forall i | 0 <= i < |EncKey(s)|
      ensures [EncKey(s)[i]] in vocab
    {
      VocabEntry(ranks, order, contents, [s[i]]);
      assert EncKey([s[i]]) == [EncKey(s)[i]];
    }
    AllCharsKept(vocab, EncKey(s));
  }

  /** The whole-piece shortcut never changes the answer. */
  lemma ShortcutAgrees(ranks: Ranks, s: Token)
    requires TwoParts(ranks)
    ensures TiktokenIds(ranks, s) == Ids(ranks, Run(RankPriority(ranks), Singles(s)))
  {
    if s in ranks {
      TokenIsItself(ranks, s);
      assert Ids(ranks, [s]).value == [ranks[s]];
    }
  }

  lemma IdsOfKeys(ranks: Ranks, vocab: map<string, nat>, parts: Parts<Byte>)
    requires forall p :: p in parts ==> p in ranks && EncKey(p) in vocab && vocab[EncKey(p)] == ranks[p]
    ensures Ids(vocab, Keys(parts)) == Ids(ranks, parts) && Ids(ranks, parts).Some?
  {
    forall i | 0 <= i < |parts|
      ensures Keys(parts)[i] in vocab && vocab[Keys(parts)[i]] == ranks[parts[i]]
    {
      assert parts[i] in parts;
    }
    assert Ids(vocab, Keys(parts)).value == Ids(ranks, parts).value;
  }

  /** Byte string by byte string, the written file yields exactly tiktoken's ids. */
  lemma IdsAgree(ranks: Ranks, order: seq<Token>, contents: seq<string>, s: Token)
    requires TwoParts(ranks) && RankOrder(ranks, order)
    requires BytesKnown(ranks, s) && SpecialsDistinct(ranks, contents)
    ensures TiktokenIds(ranks, s).Some?
    ensures ModelIds(Converted(ranks, order, contents), EncKey(s)) == TiktokenIds(ranks, s)
  {
    var model := Converted(ranks, order, contents);
    var end := Run(RankPriority(ranks), Singles(s));
    ShortcutAgrees(ranks, s);
    RunStaysInTable(ranks, Singles(s));
    TextKept(ranks, order, contents, s);
    SameEncoding(ranks, order, s);
    forall p | p in end
      ensures p in ranks && EncKey(p) in model.vocab && model.vocab[EncKey(p)] == ranks[p]
    {
      VocabEntry(ranks, order, contents, p);
    }
    IdsOfKeys(ranks, model.vocab, end);
  }

  /** A special token spelled like a table token's key makes that token's own bytes encode differently. */
  lemma SpecialShadowsToken(ranks: Ranks, order: seq<Token>, contents: seq<string>, t: Token)
    requires TwoParts(ranks) && RankOrder(ranks, order)
    requires BytesKnown(ranks, t) && t in ranks && EncKey(t) in contents
    ensures ModelIds(Converted(ranks, order, contents), EncKey(t)) != TiktokenIds(ranks, t)
  {
    var model := Converted(ranks, order, contents);
    TokenIsItself(ranks, t);
    TextKept(ranks, order, contents, t);
    SameEncoding(ranks, order, t);
    assert Keys([t]) == [EncKey(t)];
    VocabEntry(ranks, order, contents, t);
    OneId(model.vocab, EncKey(t));
    assert [model.vocab[EncKey(t)]][0] != [ranks[t]][0];
  }

  lemma OneId<X>(vocab: map<seq<X>, nat>, part: seq<X>)
    requires part in vocab
    ensures Ids(vocab, [part]) == Some([vocab[part]])
  {
    assert Ids(vocab, [part]).value == [vocab[part]];
  }

  /** For instance a table of the one byte 97 and a special token "a". */
  lemma SpecialNamedLikeByte()
    ensures var ranks, order: seq<Token> := map[[97] := 0], [[97]];
            TwoParts(ranks) && RankOrder(ranks, order) &&
            ModelIds(Converted(ranks, order, [EncKey([97])]), EncKey([97])) != TiktokenIds(ranks, [97])
  {
    var ranks: Ranks, order: seq<Token> := map[[97] := 0], [[97]];
    assert order[0] in ranks;
    SpecialShadowsToken(ranks, order, [EncKey([97])], [97]);
  }

  /** A byte without a token has no rank-driven ids, and the merge-list side drops it without a word. */
  lemma MissingByte(ranks: Ranks, model: Model, b: Byte)
    requires [b] !in ranks
    ensures TiktokenIds(ranks, [b]) == None && ModelIds(model, EncKey([b])).Some?
  {
    assert Singles([b]) == [[b]];
    OnePartStops(RankPriority(ranks), [b]);
    assert [b] in [[b]];
    assert EncKey([b]) == [KeyChar(b)];
    OneCharHasIds(model, KeyChar(b));
  }

  /** One character is kept whole or dropped, and either way has ids. */
  lemma OneCharHasIds(model: Model, c: char)
    ensures ModelIds(model, [c]).Some?
  {
    var p := MergePriority(model.merges);
    assert [c][1..] == "";
    if [c] in model.vocab {
      assert KnownChars(model.vocab, [c]) == [c];
      assert Singles([c]) == [[c]];
      OnePartStops(p, [c]);
    } else {
      assert KnownChars(model.vocab, [c]) == "";
      assert Singles<char>("") == [];
      assert forall j :: At(p, [], j).None?;
    }
  }

  /** For instance a table of the one byte 97, without specials, on the byte 98. */
  lemma ByteNotInTable()
    ensures var ranks, order: seq<Token> := map[[97] := 0], [[97]];
            TwoParts(ranks) && RankOrder(ranks, order) && SpecialsDistinct(ranks, []) &&
            ModelIds(Converted(ranks, order, []), EncKey([98])) != TiktokenIds(ranks, [98])
  {
    var ranks: Ranks, order: seq<Token> := map[[97] := 0], [[97]];
    assert order[0] in ranks;
    assert [98][0] != [97][0];
    MissingByte(ranks, Converted(ranks, order, []), 98);
  }

  /** For a table that passes the checks, the two agree on every byte string exactly when every byte has a token
      and no special shadows a token. */
  lemma AgreesEverywhereIff(ranks: Ranks, order: seq<Token>, contents: seq<string>)
    requires TwoParts(ranks) && RankOrder(ranks, order)
    ensures (forall s :: ModelIds(Converted(ranks, order, contents), EncKey(s)) == TiktokenIds(ranks, s)) <==>
            AllBytesKnown(ranks) && SpecialsDistinct(ranks, contents)
  {
    if !AllBytesKnown(ranks) {
      var b: Byte :| [b] !in ranks;
      MissingByte(ranks, Converted(ranks, order, contents), b);
    } else if SpecialsDistinct(ranks, contents) {
      forall s
        ensures ModelIds(Converted(ranks, order, contents), EncKey(s)) == TiktokenIds(ranks, s)
      {
        IdsAgree(ranks, order, contents, s);
      }
    } else {
      var t, k :| t in ranks && 0 <= k < |contents| && contents[k] == EncKey(t);
      SpecialShadowsToken(ranks, order, contents, t);
    }
  }

  // --- decoding -----------------------------------------------------------

  function Decode(order: seq<Token>, ids: seq<nat>): Token
    requires forall i :: 0 <= i < |ids| ==> ids[i] < |order|
  {
    if ids == [] then [] else order[ids[0]] + Decode(order, ids[1..])
  }

  lemma {:induction false} DecodeIds(ranks: Ranks, order: seq<Token>, parts: Parts<Byte>, ids: seq<nat>)
    requires RankOrder(ranks, order) && Ids(ranks, parts) == Some(ids)
    ensures forall i :: 0 <= i < |ids| ==> ids[i] < |order|
    ensures Decode(order, ids) == Concat(parts)
  {
    if parts != [] {
      assert parts[0] in parts && forall p :: p in parts[1..] ==> p in parts;
      assert ids[1..] == Ids(ranks, parts[1..]).value;
      DecodeIds(ranks, order, parts[1..], ids[1..]);
    }
  }

  /** Decoding an encoding gives the bytes back. */
  lemma DecodeEncode(ranks: Ranks, order: seq<Token>, s: Token)
    requires TwoParts(ranks) && RankOrder(ranks, order) && TiktokenIds(ranks, s).Some?
    ensures var ids := TiktokenIds(ranks, s).value;
            (forall i :: 0 <= i < |ids| ==> ids[i] < |order|) && Decode(order, ids) == s
  {
    ShortcutAgrees(ranks, s);
    var end := Run(RankPriority(ranks), Singles(s));
    DecodeIds(ranks, order, end, TiktokenIds(ranks, s).value);
    RunKeepsText(RankPriority(ranks), Singles(s));
    ConcatSingles(s);
  }
}
