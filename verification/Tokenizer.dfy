/**
  `kimi_k3_tokenizer.py`: turning a tiktoken rank table into a merge list.

  tiktoken joins the pair whose concatenation has the lowest rank; a merge-list tokenizer joins the pair
  that stands earliest in its list.  The converter recovers one pair per multi-byte token by replaying
  the table under a ceiling and refuses the table unless every replay ends in exactly two parts.
 */
module Tokenizer {
  import opened Common
  import opened Bpe
  import opened ByteKeys

  type Token = seq<Byte>
  type Ranks = map<Token, nat>
  type Merges = seq<(string, string)>

  // --- rank-driven side ---------------------------------------------------

  function RankPriority(ranks: Ranks): Priority<Byte> {
    (a: Token, b: Token) => if a + b in ranks then Some(ranks[a + b]) else None
  }

  function Recover(ranks: Ranks, token: Token, rank: nat): Parts<Byte> {
    Run(Capped(RankPriority(ranks), rank), Singles(token))
  }

  predicate HasRank(ranks: Ranks, r: nat) {
    exists t :: t in ranks && ranks[t] == r
  }

  ghost predicate Dense(ranks: Ranks) {
    forall r: nat :: r < |ranks| ==> HasRank(ranks, r)
  }

  ghost predicate TwoParts(ranks: Ranks) {
    forall t {:trigger Recover(ranks, t, ranks[t])} :: t in ranks && |t| != 1 ==> |Recover(ranks, t, ranks[t])| == 2
  }

  /** `order` lists the tokens by rank. */
  ghost predicate RankOrder(ranks: Ranks, order: seq<Token>) {
    && |order| == |ranks|
    && (forall r :: 0 <= r < |order| ==> order[r] in ranks && ranks[order[r]] == r)
    && forall t :: t in ranks ==> ranks[t] < |order| && order[ranks[t]] == t
  }

  /** The scan for the lowest-ranked pair below the ceiling, leftmost on a tie. */
  method LowestPair(ranks: Ranks, rank: nat, parts: Parts<Byte>) returns (best: Option<nat>)
    ensures best == Best(Capped(RankPriority(ranks), rank), parts)
  {
    ghost var prio := Capped(RankPriority(ranks), rank);
    best := None;
    var bestRank := 0;
    var i := 0;
    while i < |parts| - 1
      invariant 0 <= i && (i == 0 || i < |parts|)
      invariant best == Scan(prio, parts, i)
      invariant best.Some? ==> At(prio, parts, best.value) == Some(bestRank)
    {
      var pair := parts[i] + parts[i + 1];
      if pair in ranks && ranks[pair] < rank && (best.None? || ranks[pair] < bestRank) {
        best, bestRank := Some(i), ranks[pair];
      }
      i := i + 1;
    }
    assert parts != [] ==> At(prio, parts, |parts| - 1).None?;
  }

  /** The pair at `i` makes a token, of a rank below the ceiling if there is one. */
  predicate Joinable(ranks: Ranks, ceiling: Option<nat>, parts: Parts<Byte>, i: nat) {
    && i + 1 < |parts| && parts[i] + parts[i + 1] in ranks
    && (ceiling.Some? ==> ranks[parts[i] + parts[i + 1]] < ceiling.value)
  }

  /** The joinable pair of lowest rank, the leftmost of several. */
  ghost predicate LowestRanked(ranks: Ranks, ceiling: Option<nat>, parts: Parts<Byte>, i: nat) {
    && Joinable(ranks, ceiling, parts, i)
    && forall j: nat :: Joinable(ranks, ceiling, parts, j) ==>
         var r, r2 := ranks[parts[i] + parts[i + 1]], ranks[parts[j] + parts[j + 1]];
         r < r2 || (r == r2 && i <= j)
  }

  ghost function ByRank(ranks: Ranks, ceiling: Option<nat>): Choice<Byte> {
    (parts: Parts<Byte>, i: nat) => LowestRanked(ranks, ceiling, parts, i)
  }

  /** The priority that a ceiling leaves. */
  function Below(ranks: Ranks, ceiling: Option<nat>): Priority<Byte> {
    if ceiling.Some? then Capped(RankPriority(ranks), ceiling.value) else RankPriority(ranks)
  }

  lemma JoinableAt(ranks: Ranks, ceiling: Option<nat>, parts: Parts<Byte>, i: nat)
    ensures At(Below(ranks, ceiling), parts, i) ==
            if Joinable(ranks, ceiling, parts, i) then Some(ranks[parts[i] + parts[i + 1]]) else None
  {
  }

  lemma LowestIsBest(ranks: Ranks, ceiling: Option<nat>, parts: Parts<Byte>, i: nat)
    ensures LowestRanked(ranks, ceiling, parts, i) <==> Best(Below(ranks, ceiling), parts) == Some(i)
  {
    var p := Below(ranks, ceiling);
    forall j: nat
      ensures At(p, parts, j) ==
              if Joinable(ranks, ceiling, parts, j) then Some(ranks[parts[j] + parts[j + 1]]) else None
    {
      JoinableAt(ranks, ceiling, parts, j);
    }
    if LowestRanked(ranks, ceiling, parts, i) {
      assert IsBest(p, parts, |parts|, i);
      BestUnique(p, parts, i);
    }
    if Best(p, parts) == Some(i) {
      forall j: nat | Joinable(ranks, ceiling, parts, j)
        ensures Before(ranks[parts[i] + parts[i + 1]], i, ranks[parts[j] + parts[j + 1]], j)
      {
        assert At(p, parts, j).Some?;
      }
    }
  }

  lemma ChoosesByRank(ranks: Ranks, ceiling: Option<nat>)
    ensures Chooses(Below(ranks, ceiling), ByRank(ranks, ceiling))
  {
    forall parts, i: nat
      ensures ByRank(ranks, ceiling)(parts, i) <==> Best(Below(ranks, ceiling), parts) == Some(i)
    {
      LowestIsBest(ranks, ceiling, parts, i);
    }
  }

  /** `parts` is what joining the lowest-ranked pair below the ceiling, over and over, makes of the bytes of `token`. */
  ghost predicate ReplaysTo(ranks: Ranks, token: Token, ceiling: Option<nat>, parts: Parts<Byte>) {
    EndsIn(ByRank(ranks, ceiling), token, parts)
  }

  lemma RecoverReplays(ranks: Ranks, token: Token, rank: nat, parts: Parts<Byte>)
    ensures ReplaysTo(ranks, token, Some(rank), parts) <==> parts == Recover(ranks, token, rank)
  {
    ChoosesByRank(ranks, Some(rank));
    EndsInIff(Below(ranks, Some(rank)), ByRank(ranks, Some(rank)), token, parts);
  }

  /** The rank-driven encoder does the same without a ceiling. */
  lemma EncodingReplays(ranks: Ranks, s: Token, parts: Parts<Byte>)
    ensures ReplaysTo(ranks, s, None, parts) <==> parts == Run(RankPriority(ranks), Singles(s))
  {
    ChoosesByRank(ranks, None);
    EndsInIff(Below(ranks, None), ByRank(ranks, None), s, parts);
  }

  /** Every part is one byte or a token of lower rank. */
  ghost predicate LowParts(ranks: Ranks, rank: nat, parts: Parts<Byte>) {
    forall i :: 0 <= i < |parts| ==> |parts[i]| == 1 || (parts[i] in ranks && ranks[parts[i]] < rank)
  }

  lemma {:induction false} RunHasLowParts(ranks: Ranks, rank: nat, parts: Parts<Byte>)
    requires LowParts(ranks, rank, parts)
    ensures LowParts(ranks, rank, Run(Below(ranks, Some(rank)), parts))
    decreases |parts|
  {
    var best := Best(Below(ranks, Some(rank)), parts);
    if best.Some? {
      JoinableAt(ranks, Some(rank), parts, best.value);
      RunHasLowParts(ranks, rank, Join(parts, best.value));
    }
  }

  /** No two adjacent parts make a token of lower rank. */
  ghost predicate NoneLower(ranks: Ranks, rank: nat, parts: Parts<Byte>) {
    forall i :: 0 <= i < |parts| - 1 && parts[i] + parts[i + 1] in ranks ==> rank <= ranks[parts[i] + parts[i + 1]]
  }

  /** What a replay leaves: nothing that could still be joined, only single bytes and tokens of lower rank, and of
      a token of two or more bytes at least two parts. */
  lemma ReplayLeaves(ranks: Ranks, token: Token, rank: nat, parts: Parts<Byte>)
    requires ReplaysTo(ranks, token, Some(rank), parts)
    ensures NoneLower(ranks, rank, parts) && LowParts(ranks, rank, parts)
    ensures |token| >= 2 && token in ranks && ranks[token] >= rank ==> |parts| >= 2
  {
    RecoverReplays(ranks, token, rank, parts);
    RecoverKeepsText(ranks, token, rank);
    RunHasLowParts(ranks, rank, Singles(token));
    RunLeavesNone(ranks, rank, Singles(token));
    LowPartsAreTwo(ranks, token, rank, parts);
  }

  lemma RunLeavesNone(ranks: Ranks, rank: nat, parts: Parts<Byte>)
    ensures NoneLower(ranks, rank, Run(Below(ranks, Some(rank)), parts))
  {
    var end := Run(Below(ranks, Some(rank)), parts);
    forall i: nat
      ensures !Joinable(ranks, Some(rank), end, i)
    {
      assert At(Below(ranks, Some(rank)), end, i).None?;
      JoinableAt(ranks, Some(rank), end, i);
    }
    forall i | 0 <= i < |end| - 1 && end[i] + end[i + 1] in ranks
      ensures rank <= ranks[end[i] + end[i + 1]]
    {
      assert !Joinable(ranks, Some(rank), end, i);
    }
  }

  lemma LowPartsAreTwo(ranks: Ranks, token: Token, rank: nat, parts: Parts<Byte>)
    requires LowParts(ranks, rank, parts) && Concat(parts) == token
    ensures |token| >= 2 && token in ranks && ranks[token] >= rank ==> |parts| >= 2
  {
    if |parts| == 1 {
      OnePart(parts[0]);
      assert parts == [parts[0]];
    }
  }

  lemma OnePart<X>(part: seq<X>)
    ensures Concat([part]) == part
  {
    ConcatCons(part, []);
    assert [part] == [part] + [];
  }

  /** Replays the table on one token under the ceiling `rank`. */
  method RecoverMerge(ranks: Ranks, token: Token, rank: nat) returns (parts: Parts<Byte>)
    ensures parts == Recover(ranks, token, rank)
    ensures ReplaysTo(ranks, token, Some(rank), parts) && Concat(parts) == token
    ensures NoneLower(ranks, rank, parts) && LowParts(ranks, rank, parts)
    ensures |token| >= 2 && token in ranks && rank <= ranks[token] ==> |parts| >= 2
  {
    ghost var prio := Capped(RankPriority(ranks), rank);
    parts := [];
    for k := 0 to |token|
      invariant parts == Singles(token)[..k]
    {
      parts := parts + [[token[k]]];
    }
    assert parts == Singles(token);
    while true
      invariant Run(prio, parts) == Recover(ranks, token, rank)
      decreases |parts|
    {
      var best := LowestPair(ranks, rank, parts);
      if best.None? {
        break;
      }
      parts := Join(parts, best.value);
    }
    RunKeepsText(prio, Singles(token));
    ConcatSingles(token);
    RecoverReplays(ranks, token, rank, parts);
    ReplayLeaves(ranks, token, rank, parts);
  }

  /** Lists the tokens by rank; `None` exactly when the ranks are not 0..n-1. */
  method SortByRank(ranks: Ranks) returns (order: Option<seq<Token>>)
    ensures order.Some? <==> Dense(ranks)
    ensures order.Some? ==> RankOrder(ranks, order.value)
  {
    var sorted: seq<Token> := [];
    for r := 0 to |ranks|
      invariant |sorted| == r
      invariant forall k: nat :: k < r ==> HasRank(ranks, k)
      invariant forall k :: 0 <= k < r ==> sorted[k] in ranks && ranks[sorted[k]] == k
    {
      if t :| t in ranks && ranks[t] == r {
        sorted := sorted + [t];
      } else {
        assert !HasRank(ranks, r);
        return None;
      }
    }
    ListedAll(ranks, sorted);
    order := Some(sorted);
  }

  /** Pigeonhole: as many distinct tokens as the table holds are all of them. */
  lemma ListedAll(ranks: Ranks, sorted: seq<Token>)
    requires |sorted| == |ranks|
    requires forall k :: 0 <= k < |sorted| ==> sorted[k] in ranks && ranks[sorted[k]] == k
    ensures RankOrder(ranks, sorted)
  {
    var listed := set k | 0 <= k < |sorted| :: sorted[k];
    DistinctCount(sorted, |sorted|);
    assert listed <= ranks.Keys && |listed| == |ranks.Keys|;
    SubsetOfSameSize(listed, ranks.Keys);
  }

  // --- merge-list side ----------------------------------------------------

  /** What the replay of `token` leaves behind when it is a pair. */
  function RecoveredPair(ranks: Ranks, token: Token): Option<(string, string)>
    requires token in ranks
  {
    var parts := Recover(ranks, token, ranks[token]);
    if |parts| == 2 then Some((EncKey(parts[0]), EncKey(parts[1]))) else None
  }

  function Somes<T>(entries: seq<Option<T>>): seq<T> {
    if entries == [] then []
    else
      var init, last := entries[..|entries| - 1], entries[|entries| - 1];
      Somes(init) + if last.Some? then [last.value] else []
  }

  function PairsByRank(ranks: Ranks, order: seq<Token>): seq<Option<(string, string)>>
    requires forall t :: t in order ==> t in ranks
  {
    seq(|order|, r requires 0 <= r < |order| => RecoveredPair(ranks, order[r]))
  }

  function MergeList(ranks: Ranks, order: seq<Token>): Merges
    requires forall t :: t in order ==> t in ranks
  {
    Somes(PairsByRank(ranks, order))
  }

  /** The merge list's priority for the token of rank `r`: how many multi-byte tokens come before it. */
  function Position(ranks: Ranks, order: seq<Token>, r: nat): nat
    requires r <= |order| && forall t :: t in order ==> t in ranks
  {
    |Somes(PairsByRank(ranks, order)[..r])|
  }

  function IndexOf(merges: Merges, pair: (string, string)): (index: Option<nat>)
    ensures index.None? ==> pair !in merges
    ensures index.Some? ==> index.value < |merges| && merges[index.value] == pair && pair !in merges[..index.value]
  {
    if merges == [] then None
    else if merges[0] == pair then Some(0)
    else
      var rest := IndexOf(merges[1..], pair);
      if rest.None? then None
      else
        assert merges[..rest.value + 1] == [merges[0]] + merges[1..][..rest.value];
        Some(rest.value + 1)
  }

  function MergePriority(merges: Merges): Priority<char> {
    (a: string, b: string) => IndexOf(merges, (a, b))
  }

  /** An entry lands at the index that counts the entries before it. */
  lemma {:induction false} EntryOf<T>(entries: seq<Option<T>>, r: nat)
    requires r < |entries| && entries[r].Some?
    ensures var k := |Somes(entries[..r])|; k < |Somes(entries)| && Somes(entries)[k] == entries[r].value
    decreases |entries|
  {
    var init := entries[..|entries| - 1];
    if r < |init| {
      EntryOf(init, r);
      assert init[..r] == entries[..r];
    }
  }

  lemma {:induction false} OwnerOf<T>(entries: seq<Option<T>>, k: nat) returns (r: nat)
    requires k < |Somes(entries)|
    ensures r < |entries| && entries[r] == Some(Somes(entries)[k]) && k == |Somes(entries[..r])|
    decreases |entries|
  {
    var init := entries[..|entries| - 1];
    if k < |Somes(init)| {
      r := OwnerOf(init, k);
      assert init[..r] == entries[..r];
    } else {
      r := |init|;
    }
  }

  lemma EntriesMonotone<T>(entries: seq<Option<T>>, r: nat, r2: nat)
    requires r < r2 <= |entries| && entries[r].Some?
    ensures |Somes(entries[..r])| < |Somes(entries[..r2])|
  {
    EntryOf(entries[..r2], r);
    assert entries[..r2][..r] == entries[..r];
  }

  lemma RecoverKeepsText(ranks: Ranks, token: Token, rank: nat)
    ensures Concat(Recover(ranks, token, rank)) == token
  {
    RunKeepsText(Capped(RankPriority(ranks), rank), Singles(token));
    ConcatSingles(token);
  }

  /** Entry `r` is the pair (`a`, `b`) only if they are the parts of the token of rank `r`. */
  lemma PairNames(ranks: Ranks, token: Token, a: Token, b: Token)
    requires token in ranks && RecoveredPair(ranks, token) == Some((EncKey(a), EncKey(b)))
    ensures token == a + b && Recover(ranks, token, ranks[token]) == [a, b]
  {
    var parts := Recover(ranks, token, ranks[token]);
    EncKeyInjective(parts[0], a);
    EncKeyInjective(parts[1], b);
    assert parts == [a, b];
    ConcatPair(a, b);
    RecoverKeepsText(ranks, token, ranks[token]);
  }

  /** A pair is in the merge list exactly when it is the recovered pair of its concatenation, and then once. */
  lemma MergeIndex(ranks: Ranks, order: seq<Token>, a: Token, b: Token)
    requires RankOrder(ranks, order)
    ensures var owned := a + b in ranks && Recover(ranks, a + b, ranks[a + b]) == [a, b];
            IndexOf(MergeList(ranks, order), (EncKey(a), EncKey(b))) ==
            if owned then Some(Position(ranks, order, ranks[a + b])) else None
  {
    var entries := PairsByRank(ranks, order);
    var pair := (EncKey(a), EncKey(b));
    var index := IndexOf(Somes(entries), pair);
    if index.Some? {
      var r := OwnerOf(entries, index.value);
      assert entries[r] == RecoveredPair(ranks, order[r]);
      PairNames(ranks, order[r], a, b);
    } else if a + b in ranks && Recover(ranks, a + b, ranks[a + b]) == [a, b] {
      var r := ranks[a + b];
      assert entries[r] == RecoveredPair(ranks, order[r]) == Some(pair);
      EntryOf(entries, r);
      assert false;
    }
  }

  // --- the two encoders agree ---------------------------------------------

  /**
    In every state a rank-driven run passes through, any adjacent pair the table can join is the recovered
    pair of the token it forms: the run on that token alone has one state of two parts, and both are it.
   */
  lemma JoinableIsRecovered(ranks: Ranks, s: Token, parts: Parts<Byte>, i: nat, token: Token)
    requires Reaches(RankPriority(ranks), Singles(s), parts)
    requires i + 1 < |parts| && token == parts[i] + parts[i + 1]
    requires token in ranks && |Recover(ranks, token, ranks[token])| == 2
    ensures Recover(ranks, token, ranks[token]) == [parts[i], parts[i + 1]]
  {
    PairReached(RankPriority(ranks), s, parts, i);
    CappedRunIsPrefix(RankPriority(ranks), ranks[token], Singles(token));
    ReachesUnique(RankPriority(ranks), Singles(token), [parts[i], parts[i + 1]], Recover(ranks, token, ranks[token]));
  }

  function Keys(parts: Parts<Byte>): Parts<char> {
    seq(|parts|, i requires 0 <= i < |parts| => EncKey(parts[i]))
  }

  lemma KeysJoin(parts: Parts<Byte>, i: nat)
    requires i + 1 < |parts|
    ensures Keys(Join(parts, i)) == Join(Keys(parts), i)
  {
    EncKeyConcat(parts[i], parts[i + 1]);
    var l, r := Keys(Join(parts, i)), Join(Keys(parts), i);
    assert |l| == |r|;
    assert forall k :: 0 <= k < i ==> l[k] == r[k];
    assert l[i] == r[i];
    assert forall k :: i < k < |l| ==> l[k] == r[k];
  }

  lemma KeysOfSingles(s: Token)
    ensures Keys(Singles(s)) == Singles(EncKey(s))
  {
    forall i | 0 <= i < |s|
      ensures Keys(Singles(s))[i] == Singles(EncKey(s))[i]
    {
      assert EncKey([s[i]]) == [KeyChar(s[i])];
    }
  }

  lemma ReachedPairInTable(ranks: Ranks, s: Token, parts: Parts<Byte>, i: nat, token: Token)
    requires TwoParts(ranks) && Reaches(RankPriority(ranks), Singles(s), parts)
    requires i + 1 < |parts| && token == parts[i] + parts[i + 1] && token in ranks
    ensures Recover(ranks, token, ranks[token]) == [parts[i], parts[i + 1]]
  {
    ReachedHasNoEmptyPart(RankPriority(ranks), Singles(s), parts);
    assert |token| != 1 by {
      assert parts[i] != [] && parts[i + 1] != [];
    }
    JoinableIsRecovered(ranks, s, parts, i, token);
  }

  /** The second encoder's priority at `i` is the position of the first's. */
  ghost predicate Corresponds(ranks: Ranks, order: seq<Token>, parts: Parts<Byte>, i: int)
    requires RankOrder(ranks, order)
  {
    var a, b := At(RankPriority(ranks), parts, i), At(MergePriority(MergeList(ranks, order)), Keys(parts), i);
    && (a.Some? <==> b.Some?)
    && (a.Some? ==>
          var token := parts[i] + parts[i + 1];
          && token in ranks && a.value == ranks[token] && RecoveredPair(ranks, token).Some?
          && b.value == Position(ranks, order, ranks[token]))
  }

  /** The two encoders give a candidate pair corresponding priorities. */
  lemma SameCandidate(ranks: Ranks, order: seq<Token>, s: Token, parts: Parts<Byte>, i: int)
    requires TwoParts(ranks) && RankOrder(ranks, order)
    requires Reaches(RankPriority(ranks), Singles(s), parts)
    ensures Corresponds(ranks, order, parts, i)
  {
    if 0 <= i < |parts| - 1 {
      var token := parts[i] + parts[i + 1];
      KeyAt(ranks, order, parts, i);
      MergeIndex(ranks, order, parts[i], parts[i + 1]);
      if token in ranks {
        ReachedPairInTable(ranks, s, parts, i, token);
      }
    }
  }

  lemma KeyAt(ranks: Ranks, order: seq<Token>, parts: Parts<Byte>, i: nat)
    requires RankOrder(ranks, order) && i < |parts| - 1
    ensures At(MergePriority(MergeList(ranks, order)), Keys(parts), i) ==
            IndexOf(MergeList(ranks, order), (EncKey(parts[i]), EncKey(parts[i + 1])))
  {
  }

  /** In every reached state both encoders see the same candidates in the same order of preference. */
  lemma SameCandidates(ranks: Ranks, order: seq<Token>, s: Token, parts: Parts<Byte>)
    requires TwoParts(ranks) && RankOrder(ranks, order)
    requires Reaches(RankPriority(ranks), Singles(s), parts)
    ensures AgreeAt(RankPriority(ranks), parts, MergePriority(MergeList(ranks, order)), Keys(parts))
  {
    var p, q := RankPriority(ranks), MergePriority(MergeList(ranks, order));
    forall i
      ensures At(p, parts, i).Some? <==> At(q, Keys(parts), i).Some?
    {
      SameCandidate(ranks, order, s, parts, i);
    }
    forall i, j | At(p, parts, i).Some? && At(p, parts, j).Some?
      ensures At(p, parts, i).value <= At(p, parts, j).value <==>
              At(q, Keys(parts), i).value <= At(q, Keys(parts), j).value
    {
      SameCandidate(ranks, order, s, parts, i);
      SameCandidate(ranks, order, s, parts, j);
      PositionOrder(ranks, order, parts[i] + parts[i + 1], parts[j] + parts[j + 1]);
    }
  }

  lemma PositionOrder(ranks: Ranks, order: seq<Token>, t: Token, u: Token)
    requires RankOrder(ranks, order) && t in ranks && u in ranks
    requires RecoveredPair(ranks, t).Some? && RecoveredPair(ranks, u).Some?
    ensures ranks[t] <= ranks[u] <==> Position(ranks, order, ranks[t]) <= Position(ranks, order, ranks[u])
  {
    if ranks[t] < ranks[u] {
      EntriesMonotone(PairsByRank(ranks, order), ranks[t], ranks[u]);
    } else if ranks[u] < ranks[t] {
      EntriesMonotone(PairsByRank(ranks, order), ranks[u], ranks[t]);
    }
  }

  lemma SameStep(ranks: Ranks, order: seq<Token>, s: Token, parts: Parts<Byte>)
    requires TwoParts(ranks) && RankOrder(ranks, order)
    requires Reaches(RankPriority(ranks), Singles(s), parts)
    ensures Best(RankPriority(ranks), parts) == Best(MergePriority(MergeList(ranks, order)), Keys(parts))
  {
    SameCandidates(ranks, order, s, parts);
    AgreeSameBest(RankPriority(ranks), parts, MergePriority(MergeList(ranks, order)), Keys(parts));
  }

  lemma {:induction false} SameRunFrom(ranks: Ranks, order: seq<Token>, s: Token, parts: Parts<Byte>)
    requires TwoParts(ranks) && RankOrder(ranks, order)
    requires Reaches(RankPriority(ranks), Singles(s), parts)
    ensures Run(MergePriority(MergeList(ranks, order)), Keys(parts)) == Keys(Run(RankPriority(ranks), parts))
    decreases |parts|
  {
    SameStep(ranks, order, s, parts);
    var best := Best(RankPriority(ranks), parts);
    if best.Some? {
      ReachesStep(RankPriority(ranks), Singles(s), parts);
      KeysJoin(parts, best.value);
      SameRunFrom(ranks, order, s, Join(parts, best.value));
    }
  }

  /** On every byte string the merge list and the rank table end in the same parts. */
  lemma SameEncoding(ranks: Ranks, order: seq<Token>, s: Token)
    requires TwoParts(ranks) && RankOrder(ranks, order)
    ensures Run(MergePriority(MergeList(ranks, order)), Singles(EncKey(s))) ==
            Keys(Run(RankPriority(ranks), Singles(s)))
  {
    KeysOfSingles(s);
    SameRunFrom(ranks, order, s, Singles(s));
  }

  // --- what is accepted, what is listed -----------------------------------

  /** The replay of a token under its own rank ends in two parts. */
  ghost predicate ReplaysToPair(ranks: Ranks, t: Token)
    requires t in ranks
  {
    exists a, b :: ReplaysTo(ranks, t, Some(ranks[t]), [a, b])
  }

  lemma PairIff(ranks: Ranks, t: Token)
    requires t in ranks
    ensures ReplaysToPair(ranks, t) <==> |Recover(ranks, t, ranks[t])| == 2
  {
    var parts := Recover(ranks, t, ranks[t]);
    forall a, b
      ensures ReplaysTo(ranks, t, Some(ranks[t]), [a, b]) <==> [a, b] == parts
    {
      RecoverReplays(ranks, t, ranks[t], [a, b]);
    }
    if |parts| == 2 {
      assert parts == [parts[0], parts[1]];
    }
  }

  lemma TwoPartsIff(ranks: Ranks)
    ensures TwoParts(ranks) <==> forall t :: t in ranks && |t| != 1 ==> ReplaysToPair(ranks, t)
  {
    forall t | t in ranks
      ensures ReplaysToPair(ranks, t) <==> |Recover(ranks, t, ranks[t])| == 2
    {
      PairIff(ranks, t);
    }
  }

  /** The merges are exactly the keys of the pairs that tokens replay to. */
  lemma MergesAre(ranks: Ranks, order: seq<Token>, a: Token, b: Token)
    requires RankOrder(ranks, order)
    ensures (EncKey(a), EncKey(b)) in MergeList(ranks, order) <==>
            a + b in ranks && ReplaysTo(ranks, a + b, Some(ranks[a + b]), [a, b])
  {
    MergeIndex(ranks, order, a, b);
    if a + b in ranks {
      RecoverReplays(ranks, a + b, ranks[a + b], [a, b]);
    }
  }

  /** `merge` is the pair of the token `t`. */
  ghost predicate MergeOf(ranks: Ranks, merge: (string, string), t: Token) {
    t in ranks && exists a, b :: ReplaysTo(ranks, t, Some(ranks[t]), [a, b]) && merge == (EncKey(a), EncKey(b))
  }

  /** ... in the order of the tokens' ranks. */
  lemma MergesByRank(ranks: Ranks, order: seq<Token>, i: nat, j: nat)
    requires RankOrder(ranks, order) && i < j < |MergeList(ranks, order)|
    ensures exists t, u :: MergeOf(ranks, MergeList(ranks, order)[i], t) &&
                           MergeOf(ranks, MergeList(ranks, order)[j], u) && ranks[t] < ranks[u]
  {
    var entries := PairsByRank(ranks, order);
    var r := OwnerOf(entries, i);
    var s := OwnerOf(entries, j);
    MergeOwner(ranks, order, r);
    MergeOwner(ranks, order, s);
    if s < r {
      EntriesMonotone(entries, s, r);
    }
  }

  lemma MergeOwner(ranks: Ranks, order: seq<Token>, r: nat)
    requires RankOrder(ranks, order) && r < |order| && PairsByRank(ranks, order)[r].Some?
    ensures order[r] in ranks && ranks[order[r]] == r
    ensures MergeOf(ranks, PairsByRank(ranks, order)[r].value, order[r])
  {
    var t := order[r];
    var parts := Recover(ranks, t, ranks[t]);
    assert parts == [parts[0], parts[1]];
    RecoverReplays(ranks, t, ranks[t], [parts[0], parts[1]]);
  }

  /** The pair that stands earliest in the list, the leftmost of several. */
  ghost predicate EarliestMerge(merges: Merges, parts: Parts<char>, i: nat) {
    && i + 1 < |parts|
    && exists m :: 0 <= m < |merges| && merges[m] == (parts[i], parts[i + 1]) && NoneEarlier(merges, parts, i, m)
  }

  ghost predicate NoneEarlier(merges: Merges, parts: Parts<char>, i: nat, m: nat)
    requires m < |merges|
  {
    && (forall n, j :: 0 <= n < m && 0 <= j < |parts| - 1 ==> merges[n] != (parts[j], parts[j + 1]))
    && forall j :: 0 <= j < i && j < |parts| - 1 ==> merges[m] != (parts[j], parts[j + 1])
  }

  ghost function ByList(merges: Merges): Choice<char> {
    (parts: Parts<char>, i: nat) => EarliestMerge(merges, parts, i)
  }

  lemma EarliestIsBest(merges: Merges, parts: Parts<char>, i: nat)
    ensures EarliestMerge(merges, parts, i) <==> Best(MergePriority(merges), parts) == Some(i)
  {
    var p := MergePriority(merges);
    if EarliestMerge(merges, parts, i) {
      var m :| 0 <= m < |merges| && merges[m] == (parts[i], parts[i + 1]) && NoneEarlier(merges, parts, i, m);
      assert At(p, parts, i) == Some(m);
      forall j | 0 <= j < |parts| && At(p, parts, j).Some?
        ensures Before(m, i, At(p, parts, j).value, j)
      {
        assert merges[At(p, parts, j).value] == (parts[j], parts[j + 1]);
      }
      BestUnique(p, parts, i);
    }
    if Best(p, parts) == Some(i) {
      var m := At(p, parts, i).value;
      forall n, j | 0 <= n < m && 0 <= j < |parts| - 1
        ensures merges[n] != (parts[j], parts[j + 1])
      {
        ListedBefore(merges, parts, i, m, n, j);
      }
      forall j | 0 <= j < i && j < |parts| - 1
        ensures merges[m] != (parts[j], parts[j + 1])
      {
        ListedBefore(merges, parts, i, m, m, j);
      }
      assert NoneEarlier(merges, parts, i, m);
    }
  }

  lemma ListedBefore(merges: Merges, parts: Parts<char>, i: nat, m: nat, n: nat, j: nat)
    requires IsBest(MergePriority(merges), parts, |parts|, i) && At(MergePriority(merges), parts, i) == Some(m)
    requires n < |merges| && j < |parts| - 1 && (n < m || (n == m && j < i))
    ensures merges[n] != (parts[j], parts[j + 1])
  {
    assert At(MergePriority(merges), parts, j) == IndexOf(merges, (parts[j], parts[j + 1]));
    if merges[n] == (parts[j], parts[j + 1]) {
      IndexAtMost(merges, (parts[j], parts[j + 1]), n);
    }
  }

  lemma IndexAtMost(merges: Merges, pair: (string, string), n: nat)
    requires n < |merges| && merges[n] == pair
    ensures IndexOf(merges, pair).Some? && IndexOf(merges, pair).value <= n
  {
    assert pair in merges;
    assert n < |merges[..n + 1]| && merges[..n + 1][n] == pair;
  }

  /** The merge-list encoder joins the earliest listed pair, over and over. */
  lemma MergingReplays(merges: Merges, text: string, parts: Parts<char>)
    ensures EndsIn(ByList(merges), text, parts) <==> parts == Run(MergePriority(merges), Singles(text))
  {
    forall state, i: nat
      ensures ByList(merges)(state, i) <==> Best(MergePriority(merges), state) == Some(i)
    {
      EarliestIsBest(merges, state, i);
    }
    EndsInIff(MergePriority(merges), ByList(merges), text, parts);
  }

  /** A single part has no candidate. */
  lemma OnePartStops<X>(p: Priority<X>, token: seq<X>)
    ensures Run(p, [token]) == [token]
  {
    assert forall j :: At(p, [token], j).None?;
  }

  /** A joinable pair becomes its concatenation. */
  lemma PairCollapses(p: Priority<Byte>, a: Token, b: Token)
    requires p(a, b).Some?
    ensures Run(p, [a, b]) == [a + b]
  {
    assert At(p, [a, b], 0) == p(a, b);
    assert Best(p, [a, b]) == Some(0);
    assert Join([a, b], 0) == [a + b];
    OnePartStops(p, a + b);
  }

  /** A checked table encodes each of its own tokens to that one token. */
  lemma TokenIsItself(ranks: Ranks, token: Token)
    requires TwoParts(ranks) && token in ranks
    ensures token != [] && Run(RankPriority(ranks), Singles(token)) == [token]
  {
    var p := RankPriority(ranks);
    if |token| == 1 {
      assert token == [token[0]];
      assert Singles(token) == [token];
      OnePartStops(p, token);
    } else {
      var pair := Recover(ranks, token, ranks[token]);
      CappedRunIsPrefix(p, ranks[token], Singles(token));
      ReachesShorter(p, Singles(token), pair);
      RecoverKeepsText(ranks, token, ranks[token]);
      ConcatPair(pair[0], pair[1]);
      assert pair == [pair[0], pair[1]];
      RunFromReached(p, Singles(token), pair);
      PairCollapses(p, pair[0], pair[1]);
    }
  }
}
