/**
  Greedy pair merging, the rewriting system behind both tokenizers.

  A state is a list of parts; a priority function says which adjacent pairs may be joined and how early.
  One step joins the pair of lowest priority, leftmost on a tie.  A tiktoken rank table, the same table
  under a rank ceiling, and a merge list are three priority functions for this one system.
 */
module Bpe {
  import opened Common

  type Parts<X> = seq<seq<X>>
  type Priority<!X> = (seq<X>, seq<X>) -> Option<nat>

  // --- the system ---------------------------------------------------------

  /** The priority of joining parts `i` and `i + 1`, if they may be joined at all. */
  function At<X>(prio: Priority<X>, parts: Parts<X>, i: int): Option<nat> {
    if 0 <= i < |parts| - 1 then prio(parts[i], parts[i + 1]) else None
  }

  predicate Before(r: nat, i: int, r2: nat, j: int) {
    r < r2 || (r == r2 && i <= j)
  }

  /** Of the first `n` positions, `i` has the lowest priority and is the leftmost with it. */
  ghost predicate IsBest<X>(prio: Priority<X>, parts: Parts<X>, n: nat, i: int) {
    && 0 <= i < n
    && At(prio, parts, i).Some?
    && forall j :: 0 <= j < n && At(prio, parts, j).Some? ==>
         Before(At(prio, parts, i).value, i, At(prio, parts, j).value, j)
  }

  /** The left-to-right scan over the first `n` positions, replacing its choice on a strictly lower priority. */
  function Scan<X>(prio: Priority<X>, parts: Parts<X>, n: nat): (best: Option<nat>)
    ensures best.None? <==> forall j :: 0 <= j < n ==> At(prio, parts, j).None?
    ensures best.Some? ==> IsBest(prio, parts, n, best.value)
  {
    if n == 0 then None
    else
      var best := Scan(prio, parts, n - 1);
      var here := At(prio, parts, n - 1);
      if here.Some? && (best.None? || here.value < At(prio, parts, best.value).value)
      then Some(n - 1)
      else best
  }

  function Best<X>(prio: Priority<X>, parts: Parts<X>): (best: Option<nat>)
    ensures best.None? <==> forall j :: At(prio, parts, j).None?
    ensures best.Some? ==> IsBest(prio, parts, |parts|, best.value) && best.value + 1 < |parts|
  {
    Scan(prio, parts, |parts|)
  }

  function Join<X>(parts: Parts<X>, i: nat): Parts<X>
    requires i + 1 < |parts|
  {
    parts[..i] + [parts[i] + parts[i + 1]] + parts[i + 2..]
  }

  /** Joins until no adjacent pair may be joined. */
  function Run<X>(prio: Priority<X>, parts: Parts<X>): (end: Parts<X>)
    ensures Best(prio, end).None?
    decreases |parts|
  {
    var best := Best(prio, parts);
    if best.None? then parts else Run(prio, Join(parts, best.value))
  }

  /** `to` is one of the states the run from `from` passes through. */
  ghost predicate Reaches<X>(prio: Priority<X>, from: Parts<X>, to: Parts<X>)
    decreases |from|
  {
    from == to ||
    var best := Best(prio, from);
    best.Some? && Reaches(prio, Join(from, best.value), to)
  }

  function Concat<X>(parts: Parts<X>): seq<X> {
    if parts == [] then [] else parts[0] + Concat(parts[1..])
  }

  function Singles<X>(s: seq<X>): Parts<X> {
    seq(|s|, i requires 0 <= i < |s| => [s[i]])
  }

  // --- concatenation ------------------------------------------------------

  lemma ConcatCons<X>(head: seq<X>, rest: Parts<X>)
    ensures Concat([head] + rest) == head + Concat(rest)
  {
    assert ([head] + rest)[1..] == rest;
  }

  lemma {:induction false} ConcatAppend<X>(a: Parts<X>, b: Parts<X>)
    ensures Concat(a + b) == Concat(a) + Concat(b)
  {
    if a == [] {
      assert [] + b == b && Concat<X>([]) == [];
    } else {
      ConcatAppend(a[1..], b);
      assert a + b == [a[0]] + (a[1..] + b);
      ConcatCons(a[0], a[1..] + b);
      Associative(a[0], Concat(a[1..]), Concat(b));
    }
  }

  lemma {:induction false} ConcatSingles<X>(s: seq<X>)
    ensures Concat(Singles(s)) == s
  {
    if s != [] {
      ConcatSingles(s[1..]);
      assert Singles(s)[1..] == Singles(s[1..]);
    }
  }

  lemma ConcatPair<X>(a: seq<X>, b: seq<X>)
    ensures Concat([a, b]) == a + b
  {
    assert [a, b][1..] == [b];
    assert [b][1..] == [];
    assert Concat([b]) == b + [];
  }

  lemma SinglesSlice<X>(s: seq<X>, a: nat, b: nat)
    requires a <= b <= |s|
    ensures Singles(s)[a..b] == Singles(s[a..b])
  {
    forall k | 0 <= k < b - a
      ensures Singles(s)[a..b][k] == Singles(s[a..b])[k]
    {
      assert Singles(s)[a + k] == [s[a + k]];
    }
  }

  lemma {:induction false} ConcatJoin<X>(parts: Parts<X>, i: nat)
    requires i + 1 < |parts|
    ensures Concat(Join(parts, i)) == Concat(parts)
  {
    if i == 0 {
      assert Join(parts, 0)[1..] == parts[1..][1..];
      assert Concat(parts) == parts[0] + (parts[1] + Concat(parts[1..][1..]));
    } else {
      ConcatJoin(parts[1..], i - 1);
      assert Join(parts, i)[1..] == Join(parts[1..], i - 1);
    }
  }

  /** No step loses, adds or reorders a symbol. */
  lemma {:induction false} RunKeepsText<X>(prio: Priority<X>, parts: Parts<X>)
    ensures Concat(Run(prio, parts)) == Concat(parts)
    decreases |parts|
  {
    var best := Best(prio, parts);
    if best.Some? {
      ConcatJoin(parts, best.value);
      RunKeepsText(prio, Join(parts, best.value));
    }
  }

  // --- runs are deterministic and each length occurs once -----------------

  lemma BestUnique<X>(prio: Priority<X>, parts: Parts<X>, i: nat)
    requires IsBest(prio, parts, |parts|, i)
    ensures Best(prio, parts) == Some(i)
  {
    var b := Best(prio, parts).value;
    assert Before(At(prio, parts, i).value, i, At(prio, parts, b).value, b);
  }

  lemma {:induction false} ReachesShorter<X>(prio: Priority<X>, from: Parts<X>, to: Parts<X>)
    requires Reaches(prio, from, to)
    ensures |to| <= |from|
    ensures |to| == |from| ==> to == from
    decreases |from|
  {
    if from != to {
      ReachesShorter(prio, Join(from, Best(prio, from).value), to);
    }
  }

  lemma {:induction false} ReachesUnique<X>(prio: Priority<X>, from: Parts<X>, to: Parts<X>, to2: Parts<X>)
    requires Reaches(prio, from, to) && Reaches(prio, from, to2)
    requires |to| == |to2|
    ensures to == to2
    decreases |from|
  {
    ReachesShorter(prio, from, to);
    ReachesShorter(prio, from, to2);
    if from != to && from != to2 {
      ReachesUnique(prio, Join(from, Best(prio, from).value), to, to2);
    }
  }

  lemma {:induction false} ReachesEnd<X>(prio: Priority<X>, parts: Parts<X>)
    ensures Reaches(prio, parts, Run(prio, parts))
    decreases |parts|
  {
    var best := Best(prio, parts);
    if best.Some? {
      ReachesEnd(prio, Join(parts, best.value));
    }
  }

  lemma {:induction false} RunFromReached<X>(prio: Priority<X>, from: Parts<X>, to: Parts<X>)
    requires Reaches(prio, from, to)
    ensures Run(prio, from) == Run(prio, to)
    decreases |from|
  {
    if from != to {
      RunFromReached(prio, Join(from, Best(prio, from).value), to);
    }
  }

  lemma {:induction false} ReachesStep<X>(prio: Priority<X>, from: Parts<X>, to: Parts<X>)
    requires Reaches(prio, from, to) && Best(prio, to).Some?
    ensures Reaches(prio, from, Join(to, Best(prio, to).value))
    decreases |from|
  {
    if from != to {
      ReachesStep(prio, Join(from, Best(prio, from).value), to);
    }
  }

  // --- a span of a run is a run of that span ------------------------------

  /** Joining the best pair of a state joins the best pair of every span that contains it. */
  lemma StepInSpan<X>(prio: Priority<X>, parts: Parts<X>, k: nat, a: nat, b: nat)
    requires Best(prio, parts) == Some(k) && a <= k < b < |parts|
    ensures Best(prio, parts[a..b + 1]) == Some(k - a)
  {
    var span := parts[a..b + 1];
    assert forall j :: 0 <= j < |span| - 1 ==> At(prio, span, j) == At(prio, parts, a + j);
    BestUnique(prio, span, k - a);
  }

  lemma JoinInSpan<X>(parts: Parts<X>, k: nat, a: nat, b: nat)
    requires a <= k < b < |parts|
    ensures Join(parts[a..b + 1], k - a) == Join(parts, k)[a..b]
  {
  }

  lemma JoinLeftOfSpan<X>(parts: Parts<X>, k: nat, a: nat, b: nat)
    requires k < a <= b < |parts|
    ensures Join(parts, k)[a..b] == parts[a + 1..b + 1]
  {
  }

  lemma JoinRightOfSpan<X>(parts: Parts<X>, k: nat, a: nat, b: nat)
    requires k + 1 < |parts| && a <= b <= k
    ensures Join(parts, k)[a..b] == parts[a..b]
  {
  }

  /** The state before a join inside a span reaches, on one part more, what the span reaches. */
  lemma SpanGrows<X>(prio: Priority<X>, from: Parts<X>, k: nat, a: nat, b: nat, end: Parts<X>)
    requires Best(prio, from) == Some(k) && a <= k < b < |from|
    requires Reaches(prio, Join(from, k)[a..b], end)
    ensures Reaches(prio, from[a..b + 1], end)
  {
    var span := from[a..b + 1];
    StepInSpan(prio, from, k, a, b);
    JoinInSpan(from, k, a, b);
    ReachesBefore(prio, span, k - a, end);
  }

  lemma ReachesNext<X>(prio: Priority<X>, from: Parts<X>, to: Parts<X>) returns (k: nat)
    requires Reaches(prio, from, to) && from != to
    ensures k + 1 < |from| && Best(prio, from) == Some(k) && Reaches(prio, Join(from, k), to)
  {
    k := Best(prio, from).value;
  }

  lemma {:induction false} ReachesKeepsText<X>(prio: Priority<X>, from: Parts<X>, to: Parts<X>)
    requires Reaches(prio, from, to)
    ensures Concat(from) == Concat(to)
    decreases |from|
  {
    if from != to {
      var k := ReachesNext(prio, from, to);
      ConcatJoin(from, k);
      ReachesKeepsText(prio, Join(from, k), to);
    }
  }

  lemma ReachesBefore<X>(prio: Priority<X>, from: Parts<X>, k: nat, to: Parts<X>)
    requires Best(prio, from) == Some(k) && Reaches(prio, Join(from, k), to)
    ensures Reaches(prio, from, to)
  {
  }

  /** Where a span that does not hold the joined part was before the join. */
  lemma SpanMoved<X>(from: Parts<X>, k: nat, a: nat, b: nat) returns (a2: nat, b2: nat)
    requires k + 1 < |from| && a <= b < |from| && (k < a || b <= k)
    ensures a2 <= b2 <= |from| && Join(from, k)[a..b] == from[a2..b2]
  {
    if k < a {
      JoinLeftOfSpan(from, k, a, b);
      a2, b2 := a + 1, b + 1;
    } else {
      JoinRightOfSpan(from, k, a, b);
      a2, b2 := a, b;
    }
  }

  /**
    The key step.  What a run does inside a span that ends up delimited is exactly a run on that span alone:
    the span of the final state is reached from the part of the start state that covers it.
   */
  lemma {:induction false} SpanOfRun<X>(prio: Priority<X>, from: Parts<X>, to: Parts<X>, i: nat, j: nat)
    returns (a: nat, b: nat)
    requires Reaches(prio, from, to) && i <= j <= |to|
    ensures a <= b <= |from| && Reaches(prio, from[a..b], to[i..j])
    decreases |from|
  {
    if from == to {
      return i, j;
    }
    var k := ReachesNext(prio, from, to);
    a, b := SpanOfRun(prio, Join(from, k), to, i, j);
    if a <= k < b {
      SpanGrows(prio, from, k, a, b, to[i..j]);
      b := b + 1;
    } else {
      a, b := SpanMoved(from, k, a, b);
    }
  }

  /** Started from single symbols, every span of a reached state is reached from its own symbols. */
  lemma SpanReachedFromItself<X>(prio: Priority<X>, s: seq<X>, to: Parts<X>, i: nat, j: nat)
    requires Reaches(prio, Singles(s), to) && i <= j <= |to|
    ensures Reaches(prio, Singles(Concat(to[i..j])), to[i..j])
  {
    var a, b := SpanOfRun(prio, Singles(s), to, i, j);
    ReachesKeepsText(prio, Singles(s)[a..b], to[i..j]);
    SinglesSlice(s, a, b);
    ConcatSingles(s[a..b]);
  }

  lemma PairReached<X>(prio: Priority<X>, s: seq<X>, parts: Parts<X>, i: nat)
    requires Reaches(prio, Singles(s), parts) && i + 1 < |parts|
    ensures Reaches(prio, Singles(parts[i] + parts[i + 1]), [parts[i], parts[i + 1]])
  {
    AdjacentPair(parts, i);
    SpanReachedFromItself(prio, s, parts, i, i + 2);
  }

  lemma AdjacentPair<X>(parts: Parts<X>, i: nat)
    requires i + 1 < |parts|
    ensures parts[i..i + 2] == [parts[i], parts[i + 1]] && Concat(parts[i..i + 2]) == parts[i] + parts[i + 1]
  {
    assert parts[i..i + 2] == [parts[i], parts[i + 1]];
    ConcatPair(parts[i], parts[i + 1]);
  }

  ghost predicate NoEmptyPart<X>(parts: Parts<X>) {
    forall i :: 0 <= i < |parts| ==> parts[i] != []
  }

  lemma {:induction false} ReachedHasNoEmptyPart<X>(prio: Priority<X>, from: Parts<X>, to: Parts<X>)
    requires NoEmptyPart(from) && Reaches(prio, from, to)
    ensures NoEmptyPart(to)
    decreases |from|
  {
    if from != to {
      ReachedHasNoEmptyPart(prio, Join(from, Best(prio, from).value), to);
    }
  }

  // --- agreement of two priorities ----------------------------------------

  /** `p` and `q` allow the same joins in these states and order them the same way. */
  ghost predicate AgreeAt<X, Y>(p: Priority<X>, parts: Parts<X>, q: Priority<Y>, parts2: Parts<Y>) {
    && |parts| == |parts2|
    && (forall i :: At(p, parts, i).Some? <==> At(q, parts2, i).Some?)
    && forall i, j :: At(p, parts, i).Some? && At(p, parts, j).Some? ==>
         (At(p, parts, i).value <= At(p, parts, j).value <==> At(q, parts2, i).value <= At(q, parts2, j).value)
  }

  lemma AgreeSameBest<X, Y>(p: Priority<X>, parts: Parts<X>, q: Priority<Y>, parts2: Parts<Y>)
    requires AgreeAt(p, parts, q, parts2)
    ensures Best(p, parts) == Best(q, parts2)
  {
    var b := Best(p, parts);
    if b.Some? {
      assert At(p, parts, b.value).Some? && At(q, parts2, b.value).Some?;
      forall j | 0 <= j < |parts2| && At(q, parts2, j).Some?
        ensures Before(At(q, parts2, b.value).value, b.value, At(q, parts2, j).value, j)
      {
        assert At(p, parts, j).Some?;
      }
      BestUnique(q, parts2, b.value);
    } else {
      assert forall j :: At(p, parts, j).None?;
    }
  }

  /** `p` with every priority at or above `ceiling` withdrawn. */
  function Capped<X>(p: Priority<X>, ceiling: nat): Priority<X> {
    (a: seq<X>, b: seq<X>) => if p(a, b).Some? && p(a, b).value < ceiling then p(a, b) else None
  }

  lemma CappedBest<X>(p: Priority<X>, ceiling: nat, parts: Parts<X>)
    requires Best(Capped(p, ceiling), parts).Some?
    ensures Best(p, parts) == Best(Capped(p, ceiling), parts)
  {
    var c := Capped(p, ceiling);
    assert forall j :: At(c, parts, j).Some? ==> At(p, parts, j) == At(c, parts, j);
    assert forall j :: At(c, parts, j).None? && At(p, parts, j).Some? ==> ceiling <= At(p, parts, j).value;
    BestUnique(p, parts, Best(c, parts).value);
  }

  /** A run under a ceiling is the beginning of the run without it. */
  lemma {:induction false} CappedRunIsPrefix<X>(p: Priority<X>, ceiling: nat, parts: Parts<X>)
    ensures Reaches(p, parts, Run(Capped(p, ceiling), parts))
    decreases |parts|
  {
    var best := Best(Capped(p, ceiling), parts);
    if best.Some? {
      CappedBest(p, ceiling, parts);
      CappedRunIsPrefix(p, ceiling, Join(parts, best.value));
    }
  }

  // --- runs as histories ----------------------------------------------------

  /** `next` is `parts` with parts `i` and `i + 1` made one. */
  ghost predicate JoinedAt<X>(parts: Parts<X>, i: nat, next: Parts<X>) {
    && i + 1 < |parts| && |next| + 1 == |parts| && next[i] == parts[i] + parts[i + 1]
    && (forall k :: 0 <= k < i ==> next[k] == parts[k]) && (forall k :: i < k < |next| ==> next[k] == parts[k + 1])
  }

  /** Which pair of a state is to be joined, if any. */
  type Choice<!X> = (Parts<X>, nat) -> bool

  ghost predicate StepBy<X>(chosen: Choice<X>, parts: Parts<X>, next: Parts<X>) {
    exists i :: chosen(parts, i) && JoinedAt(parts, i, next)
  }

  ghost predicate Settled<X>(chosen: Choice<X>, parts: Parts<X>) {
    forall i :: !chosen(parts, i)
  }

  /** Every state follows from the one before by the chosen join, and the last has none left. */
  ghost predicate History<X>(chosen: Choice<X>, states: seq<Parts<X>>) {
    && states != []
    && (forall k :: 0 <= k < |states| - 1 ==> StepBy(chosen, states[k], states[k + 1]))
    && Settled(chosen, states[|states| - 1])
  }

  /** `parts` is what choosing and joining makes of the single symbols of `s`. */
  ghost predicate EndsIn<X(!new)>(chosen: Choice<X>, s: seq<X>, parts: Parts<X>) {
    exists states :: History(chosen, states) && Symbols(states[0], s) && states[|states| - 1] == parts
  }

  ghost predicate Symbols<X>(parts: Parts<X>, s: seq<X>) {
    |parts| == |s| && forall k :: 0 <= k < |s| ==> parts[k] == [s[k]]
  }

  /** The choice is that of the priority function. */
  ghost predicate Chooses<X(!new)>(prio: Priority<X>, chosen: Choice<X>) {
    forall parts, i: nat :: chosen(parts, i) <==> Best(prio, parts) == Some(i)
  }

  lemma JoinedOnce<X>(parts: Parts<X>, i: nat, next: Parts<X>)
    requires i + 1 < |parts|
    ensures JoinedAt(parts, i, next) <==> next == Join(parts, i)
  {
    if JoinedAt(parts, i, next) {
      assert |next| == |Join(parts, i)|;
      assert forall k :: 0 <= k < |next| ==> next[k] == Join(parts, i)[k];
    }
  }

  /** A history of choices ends where the run ends. */
  lemma {:induction false} HistoryEnds<X(!new)>(prio: Priority<X>, chosen: Choice<X>, states: seq<Parts<X>>)
    requires Chooses(prio, chosen) && History(chosen, states)
    ensures states[|states| - 1] == Run(prio, states[0])
    decreases |states|
  {
    if |states| == 1 {
      SettledStops(prio, chosen, states[0]);
    } else {
      StepIsJoin(prio, chosen, states[0], states[1]);
      HistoryRest(chosen, states);
      HistoryEnds(prio, chosen, states[1..]);
    }
  }

  lemma SettledStops<X(!new)>(prio: Priority<X>, chosen: Choice<X>, parts: Parts<X>)
    requires Chooses(prio, chosen) && Settled(chosen, parts)
    ensures Best(prio, parts) == None
  {
    forall k: nat
      ensures Best(prio, parts) != Some(k)
    {
      assert !chosen(parts, k);
    }
  }

  lemma StepIsJoin<X(!new)>(prio: Priority<X>, chosen: Choice<X>, parts: Parts<X>, next: Parts<X>)
    requires Chooses(prio, chosen) && StepBy(chosen, parts, next)
    ensures Best(prio, parts).Some? && next == Join(parts, Best(prio, parts).value)
  {
    var i: nat :| chosen(parts, i) && JoinedAt(parts, i, next);
    JoinedOnce(parts, i, next);
  }

  lemma HistoryRest<X>(chosen: Choice<X>, states: seq<Parts<X>>)
    requires History(chosen, states) && |states| > 1
    ensures History(chosen, states[1..])
  {
    var rest := states[1..];
    forall k | 0 <= k < |rest| - 1
      ensures StepBy(chosen, rest[k], rest[k + 1])
    {
      assert StepBy(chosen, states[k + 1], states[k + 1 + 1]);
    }
  }

  /** Every run has its history. */
  lemma {:induction false} HistoryOf<X(!new)>(prio: Priority<X>, chosen: Choice<X>, from: Parts<X>)
    returns (states: seq<Parts<X>>)
    requires Chooses(prio, chosen)
    ensures History(chosen, states) && states[0] == from && states[|states| - 1] == Run(prio, from)
    decreases |from|
  {
    var best := Best(prio, from);
    if best.None? {
      states := [from];
    } else {
      var next := Join(from, best.value);
      var rest := HistoryOf(prio, chosen, next);
      states := [from] + rest;
      JoinedOnce(from, best.value, next);
      assert StepBy(chosen, from, next);
      forall k | 0 <= k < |states| - 1
        ensures StepBy(chosen, states[k], states[k + 1])
      {
        if k > 0 {
          assert states[k] == rest[k - 1] && states[k + 1] == rest[k];
        }
      }
    }
  }

  /** What a run makes of single symbols is exactly what choosing makes of them. */
  lemma EndsInIff<X(!new)>(prio: Priority<X>, chosen: Choice<X>, s: seq<X>, parts: Parts<X>)
    requires Chooses(prio, chosen)
    ensures EndsIn(chosen, s, parts) <==> parts == Run(prio, Singles(s))
  {
    if EndsIn(chosen, s, parts) {
      var states :| History(chosen, states) && Symbols(states[0], s) && states[|states| - 1] == parts;
      assert states[0] == Singles(s);
      HistoryEnds(prio, chosen, states);
    }
    if parts == Run(prio, Singles(s)) {
      var states := HistoryOf(prio, chosen, Singles(s));
      assert Symbols(states[0], s);
    }
  }
}
