/**
  The two attribution walks over a decode step's trace: `gemma31_dec_phase.py` (critical path) and
  `k3_trace_report.py` (chain).  Both charge packets, in program order, against a frontier: the latest end
  seen so far.  Times are clock ticks.
 */
module TraceWalk {
  import opened Common
  import opened Tally

  // --- the frontier -------------------------------------------------------

  /** A packet's first arrival and last end. */
  datatype Span = Span(a: int, e: int)

  function Max(x: int, y: int): int { if x < y then y else x }

  function Min(x: int, y: int): int { if y < x then y else x }

  function Frontier(lo: int, ps: seq<Span>): int {
    if ps == [] then lo else Max(Frontier(lo, ps[..|ps| - 1]), ps[|ps| - 1].e)
  }

  /** What a packet adds beyond the frontier. */
  function Charge(f: int, p: Span): nat { Max(0, p.e - Max(f, p.a)) }

  /** How long the frontier waits for a packet to arrive. */
  function Idle(f: int, p: Span): nat { Max(0, p.a - f) }

  function Charges(lo: int, ps: seq<Span>): nat {
    if ps == [] then 0
    else Charges(lo, ps[..|ps| - 1]) + Charge(Frontier(lo, ps[..|ps| - 1]), ps[|ps| - 1])
  }

  function Idles(lo: int, ps: seq<Span>): nat {
    if ps == [] then 0
    else Idles(lo, ps[..|ps| - 1]) + Idle(Frontier(lo, ps[..|ps| - 1]), ps[|ps| - 1])
  }

  ghost predicate Forward(ps: seq<Span>) {
    forall i :: 0 <= i < |ps| ==> ps[i].a <= ps[i].e
  }

  /** Conservation: the envelope is what was charged plus what was idle. */
  lemma {:induction false} EnvelopeConserved(lo: int, ps: seq<Span>)
    requires Forward(ps)
    ensures Frontier(lo, ps) - lo == Charges(lo, ps) + Idles(lo, ps)
  {
    if ps != [] {
      EnvelopeConserved(lo, ps[..|ps| - 1]);
    }
  }

  /** The charges sum to the whole envelope exactly when no packet arrives after everything before it has ended. */
  lemma {:induction false} ChargesFillEnvelopeIff(lo: int, ps: seq<Span>)
    requires Forward(ps)
    ensures Charges(lo, ps) == Frontier(lo, ps) - lo <==> NoGaps(lo, ps)
  {
    EnvelopeConserved(lo, ps);
    NoIdleIff(lo, ps);
  }

  /** Two packets with a gap between them: the columns sum to 2 where the step took 6. */
  lemma ColumnsMissTheGap()
    ensures var ps := [Span(0, 1), Span(5, 6)];
            Forward(ps) && Charges(0, ps) == 2 && Frontier(0, ps) - 0 == 6
  {
    var ps := [Span(0, 1), Span(5, 6)];
    assert ps[..1] == [Span(0, 1)] && ps[..1][..0] == [];
    assert Frontier(0, ps[..1]) == 1 && Charges(0, ps[..1]) == 1;
  }

  /** Each packet arrives by the time everything before it has ended. */
  ghost predicate NoGaps(lo: int, ps: seq<Span>) {
    forall n :: 0 <= n < |ps| ==> ps[n].a <= Frontier(lo, ps[..n])
  }

  lemma NoGapsNext(lo: int, ps: seq<Span>)
    requires ps != []
    ensures NoGaps(lo, ps) <==>
            NoGaps(lo, ps[..|ps| - 1]) && ps[|ps| - 1].a <= Frontier(lo, ps[..|ps| - 1])
  {
    var init := ps[..|ps| - 1];
    assert forall n :: 0 <= n < |init| ==> init[..n] == ps[..n] && init[n] == ps[n];
  }

  lemma {:induction false} NoIdleIff(lo: int, ps: seq<Span>)
    ensures Idles(lo, ps) == 0 <==> NoGaps(lo, ps)
  {
    if ps != [] {
      NoIdleIff(lo, ps[..|ps| - 1]);
      NoGapsNext(lo, ps);
    }
  }

  // --- charges as ticks ---------------------------------------------------

  /** The ticks from `lo` up to, not including, `hi`. */
  function Ticks(lo: int, hi: int): (s: set<int>)
    ensures forall t :: t in s <==> lo <= t < hi
    decreases hi - lo
  {
    if hi <= lo then {} else Ticks(lo, hi - 1) + {hi - 1}
  }

  lemma {:induction false} TicksCount(lo: int, hi: int)
    ensures |Ticks(lo, hi)| == Max(0, hi - lo)
    decreases hi - lo
  {
    if lo < hi {
      TicksCount(lo, hi - 1);
    }
  }

  /** The ticks during which some packet is running. */
  function Covered(ps: seq<Span>): set<int> {
    if ps == [] then {} else Covered(ps[..|ps| - 1]) + Ticks(ps[|ps| - 1].a, ps[|ps| - 1].e)
  }

  /** The ticks the walk counts as idle. */
  function Gaps(lo: int, ps: seq<Span>): set<int> {
    if ps == [] then {}
    else Gaps(lo, ps[..|ps| - 1]) + Ticks(Frontier(lo, ps[..|ps| - 1]), ps[|ps| - 1].a)
  }

  lemma TicksJoin(lo: int, f: int, a: int, e: int)
    requires lo <= f && lo <= a <= e
    ensures Ticks(lo, f) + Ticks(a, e) + Ticks(f, a) == Ticks(lo, Max(f, e))
  {
    var x, y, z, all := Ticks(lo, f), Ticks(a, e), Ticks(f, a), Ticks(lo, Max(f, e));
    forall t
      ensures t in x + y + z <==> t in all
    {
    }
  }

  lemma {:induction false} FrontierFromStart(lo: int, ps: seq<Span>)
    ensures lo <= Frontier(lo, ps)
  {
    if ps != [] {
      FrontierFromStart(lo, ps[..|ps| - 1]);
    }
  }

  lemma {:induction false} FrontierAbove(lo: int, ps: seq<Span>)
    ensures forall i :: 0 <= i < |ps| ==> ps[i].e <= Frontier(lo, ps)
  {
    if ps != [] {
      FrontierAbove(lo, ps[..|ps| - 1]);
    }
  }

  lemma Regrouped<T>(c: set<T>, g: set<T>, x: set<T>, y: set<T>)
    ensures (c + x) + (g + y) == (c + g) + x + y
  {
  }

  lemma DisjointCount<T>(g: set<T>, within: set<T>, y: set<T>)
    requires g <= within && within !! y
    ensures |g + y| == |g| + |y|
  {
    assert g !! y;
  }

  lemma {:induction false} GapsAndCovered(lo: int, ps: seq<Span>)
    requires Forward(ps) && forall i :: 0 <= i < |ps| ==> lo <= ps[i].a
    ensures Covered(ps) + Gaps(lo, ps) == Ticks(lo, Frontier(lo, ps))
    ensures |Gaps(lo, ps)| == Idles(lo, ps)
  {
    if ps != [] {
      var init, p := ps[..|ps| - 1], ps[|ps| - 1];
      var f := Frontier(lo, init);
      GapsAndCovered(lo, init);
      FrontierFromStart(lo, init);
      TicksCount(f, p.a);
      TicksJoin(lo, f, p.a, p.e);
      Regrouped(Covered(init), Gaps(lo, init), Ticks(p.a, p.e), Ticks(f, p.a));
      DisjointCount(Gaps(lo, init), Ticks(lo, f), Ticks(f, p.a));
    }
  }

  lemma OverlapCount<T>(a: set<T>, b: set<T>)
    ensures |a + b| == |a| + |b| - |a * b|
  {
    assert a + b == a + (b - a);
    assert b == (b - a) + (a * b);
  }

  /** The walk charges every running tick except those inside a gap that a later packet turns out to cover. */
  lemma ChargesCountTicks(lo: int, ps: seq<Span>)
    requires Forward(ps) && forall i :: 0 <= i < |ps| ==> lo <= ps[i].a
    ensures |Covered(ps)| == Charges(lo, ps) + |Covered(ps) * Gaps(lo, ps)|
  {
    EnvelopeConserved(lo, ps);
    GapsAndCovered(lo, ps);
    FrontierFromStart(lo, ps);
    TicksCount(lo, Frontier(lo, ps));
    OverlapCount(Covered(ps), Gaps(lo, ps));
  }

  /** `p` runs at no tick of the gap from `f` up to `a`. */
  predicate Misses(p: Span, f: int, a: int) { Max(f, p.a) >= Min(a, p.e) }

  /** No packet runs during a gap that the walk has already counted before an earlier packet. */
  ghost predicate NoLateCover(lo: int, ps: seq<Span>) {
    forall m, n :: 0 <= m < n < |ps| ==> Misses(ps[n], Frontier(lo, ps[..m]), ps[m].a)
  }

  lemma {:induction false} InCovered(ps: seq<Span>, t: int)
    ensures t in Covered(ps) <==> exists n :: 0 <= n < |ps| && ps[n].a <= t < ps[n].e
  {
    if ps != [] {
      InCovered(ps[..|ps| - 1], t);
    }
  }

  ghost predicate InGap(lo: int, ps: seq<Span>, m: nat, t: int) {
    m < |ps| && Frontier(lo, ps[..m]) <= t < ps[m].a
  }

  lemma {:induction false} InGaps(lo: int, ps: seq<Span>, t: int)
    ensures t in Gaps(lo, ps) <==> exists m: nat :: InGap(lo, ps, m, t)
  {
    if ps != [] {
      var n := |ps| - 1;
      InGaps(lo, ps[..n], t);
      forall m: nat | m < n
        ensures InGap(lo, ps[..n], m, t) <==> InGap(lo, ps, m, t)
      {
        assert ps[..n][..m] == ps[..m];
      }
      assert InGap(lo, ps, n, t) <==> t in Ticks(Frontier(lo, ps[..n]), ps[n].a);
    }
  }

  /** Only a later packet can run inside a gap. */
  lemma OverlapIsLate(lo: int, ps: seq<Span>, m: nat, n: nat, t: int)
    requires InGap(lo, ps, m, t) && n < |ps| && ps[n].a <= t < ps[n].e
    ensures m < n && !Misses(ps[n], Frontier(lo, ps[..m]), ps[m].a)
  {
    FrontierAboveEarlier(lo, ps, m);
  }

  lemma FrontierAboveEarlier(lo: int, ps: seq<Span>, m: nat)
    requires m <= |ps|
    ensures forall n :: 0 <= n < m ==> ps[n].e <= Frontier(lo, ps[..m])
  {
    FrontierAbove(lo, ps[..m]);
    assert forall n :: 0 <= n < m ==> ps[..m][n] == ps[n];
  }

  lemma NoOverlapIff(lo: int, ps: seq<Span>)
    ensures Covered(ps) * Gaps(lo, ps) == {} <==> NoLateCover(lo, ps)
  {
    if t :| t in Covered(ps) * Gaps(lo, ps) {
      InCovered(ps, t);
      InGaps(lo, ps, t);
      var n :| 0 <= n < |ps| && ps[n].a <= t < ps[n].e;
      var m: nat :| InGap(lo, ps, m, t);
      OverlapIsLate(lo, ps, m, n, t);
    }
    if !NoLateCover(lo, ps) {
      var m, n :| 0 <= m < n < |ps| && !Misses(ps[n], Frontier(lo, ps[..m]), ps[m].a);
      var t := Max(Frontier(lo, ps[..m]), ps[n].a);
      InCovered(ps, t);
      InGaps(lo, ps, t);
      assert InGap(lo, ps, m, t);
      assert t in Covered(ps) * Gaps(lo, ps);
    }
  }

  /** The charges count the running ticks exactly when no packet runs during a gap counted before it. */
  lemma ChargesAreCoveredIff(lo: int, ps: seq<Span>)
    requires Forward(ps) && forall i :: 0 <= i < |ps| ==> lo <= ps[i].a
    ensures Charges(lo, ps) == |Covered(ps)| <==> NoLateCover(lo, ps)
  {
    ChargesCountTicks(lo, ps);
    NoOverlapIff(lo, ps);
  }

  /** A packet that runs within an earlier gap is not charged: 2 of 4 running ticks. */
  lemma LateCoverNotCharged()
    ensures var ps := [Span(0, 1), Span(5, 6), Span(2, 4)];
            Forward(ps) && Charges(0, ps) == 2 && |Covered(ps)| == 4
  {
    var ps := [Span(0, 1), Span(5, 6), Span(2, 4)];
    assert ps[..2] == [Span(0, 1), Span(5, 6)];
    ColumnsMissTheGap();
    CoveredLate();
    assert |{0, 2, 3, 5}| == 4;
  }

  lemma CoveredLate()
    ensures Covered([Span(0, 1), Span(5, 6), Span(2, 4)]) == {0, 2, 3, 5}
  {
    var ps := [Span(0, 1), Span(5, 6), Span(2, 4)];
    forall t
      ensures t in Covered(ps) <==> t in {0, 2, 3, 5}
    {
      InCovered(ps, t);
      assert ps[0] == Span(0, 1) && ps[1] == Span(5, 6) && ps[2] == Span(2, 4);
    }
  }

  // --- the critical-path walk ---------------------------------------------

  /** One workgroup's phases and its arrival and end. */
  datatype Rec = Rec(gate: nat, acquire: nat, body: nat, publish: nat, ta: nat, te: nat)

  datatype Packet = Packet(op: string, recs: seq<Rec>)

  ghost predicate Recorded(packets: seq<Packet>) {
    packets != [] && forall i :: 0 <= i < |packets| ==> HasRecords(packets[i])
  }

  /** A packet has records, and each arrives no later than it ends. */
  ghost predicate HasRecords(p: Packet) {
    p.recs != [] && forall k :: 0 <= k < |p.recs| ==> p.recs[k].ta <= p.recs[k].te
  }

  function FirstArrival(recs: seq<Rec>): nat
    requires recs != []
  {
    if |recs| == 1 then recs[0].ta else Min(FirstArrival(recs[..|recs| - 1]), recs[|recs| - 1].ta)
  }

  /** The workgroup that closes the packet: the first with the latest end. */
  function Slowest(recs: seq<Rec>): (slow: Rec)
    requires recs != []
    ensures slow in recs && forall r :: r in recs ==> r.te <= slow.te
  {
    if |recs| == 1 then recs[0]
    else
      var before := Slowest(recs[..|recs| - 1]);
      assert recs == recs[..|recs| - 1] + [recs[|recs| - 1]];
      if before.te < recs[|recs| - 1].te then recs[|recs| - 1] else before
  }

  /** Of equally slow workgroups it is the first. */
  lemma {:induction false} SlowestIsFirst(recs: seq<Rec>) returns (i: nat)
    requires recs != []
    ensures i < |recs| && recs[i] == Slowest(recs) && forall j :: 0 <= j < i ==> recs[j].te < recs[i].te
  {
    if |recs| == 1 {
      i := 0;
    } else {
      var init, last := recs[..|recs| - 1], recs[|recs| - 1];
      i := SlowestIsFirst(init);
      if init[i].te < last.te {
        forall j | 0 <= j < |init|
          ensures init[j].te < last.te
        {
          assert init[j] in init;
        }
        i := |init|;
      }
    }
  }

  lemma {:induction false} FirstArrivalBelow(recs: seq<Rec>, r: Rec)
    requires r in recs
    ensures FirstArrival(recs) <= r.ta
  {
    if |recs| > 1 {
      assert recs == recs[..|recs| - 1] + [recs[|recs| - 1]];
      if r in recs[..|recs| - 1] {
        FirstArrivalBelow(recs[..|recs| - 1], r);
      }
    }
  }

  function SpanOf(p: Packet): Span
    requires p.recs != []
  {
    Span(FirstArrival(p.recs), Slowest(p.recs).te)
  }

  function Spans(packets: seq<Packet>): seq<Span>
    requires forall i :: 0 <= i < |packets| ==> packets[i].recs != []
  {
    seq(|packets|, i requires 0 <= i < |packets| => SpanOf(packets[i]))
  }

  lemma SpansForward(packets: seq<Packet>)
    requires Recorded(packets)
    ensures Forward(Spans(packets))
  {
    forall i | 0 <= i < |packets|
      ensures Spans(packets)[i].a <= Spans(packets)[i].e
    {
      assert HasRecords(packets[i]);
      var slow := Slowest(packets[i].recs);
      FirstArrivalBelow(packets[i].recs, slow);
    }
  }

  /** A charge split over the phases of the closing workgroup, innermost first. */
  datatype Cost = Cost(n: nat, gate: nat, body: nat, publish: nat)

  function SplitCharge(c: nat, slow: Rec): (cost: Cost)
    ensures cost.gate + cost.body + cost.publish == c
    ensures cost.publish <= slow.publish && cost.body <= slow.body
    ensures cost.gate > 0 ==> cost.publish == slow.publish && cost.body == slow.body
    ensures cost.body > 0 ==> cost.publish == slow.publish
    ensures cost.n == 1
  {
    var publish := Min(c, slow.publish);
    var body := Min(c - publish, slow.body);
    Cost(1, c - publish - body, body, publish)
  }

  function Sum(x: Cost, y: Cost): Cost { Cost(x.n + y.n, x.gate + y.gate, x.body + y.body, x.publish + y.publish) }

  const FREE := Cost(0, 0, 0, 0)

  function Packets(c: Cost): nat { c.n }

  function Charged(c: Cost): nat { c.gate + c.body + c.publish }

  /** Costs per operation. */
  type Costs = Table<string, Cost>

  /** What packet `p` costs when the frontier stands at `f`. */
  function CostAt(f: int, p: Packet): Cost
    requires p.recs != []
  {
    SplitCharge(Charge(f, SpanOf(p)), Slowest(p.recs))
  }

  /** The costs of operation `op`'s own packets. */
  function CostOfOp(lo: int, packets: seq<Packet>, op: string): Cost
    requires forall i :: 0 <= i < |packets| ==> packets[i].recs != []
  {
    if packets == [] then FREE
    else
      var init, p := packets[..|packets| - 1], packets[|packets| - 1];
      if op == p.op then Sum(CostOfOp(lo, init, op), CostAt(Frontier(lo, Spans(init)), p)) else CostOfOp(lo, init, op)
  }

  /** The first packet to arrive arrives at `lo`. */
  ghost predicate IsEarliest(spans: seq<Span>, lo: int) {
    (forall i :: 0 <= i < |spans| ==> lo <= spans[i].a) && exists i :: 0 <= i < |spans| && lo == spans[i].a
  }

  lemma EarlierOf(spans: seq<Span>, n: nat, lo: int)
    requires n < |spans| && IsEarliest(spans[..n], lo)
    ensures IsEarliest(spans[..n + 1], Min(lo, spans[n].a))
  {
    var i :| 0 <= i < n && lo == spans[..n][i].a;
    assert spans[..n + 1][i].a == lo && spans[..n + 1][n] == spans[n];
    assert forall k :: 0 <= k < n ==> spans[..n][k] == spans[..n + 1][k];
  }

  method EarliestArrival(packets: seq<Packet>) returns (lo: nat)
    requires Recorded(packets)
    ensures IsEarliest(Spans(packets), lo)
  {
    ghost var spans := Spans(packets);
    assert HasRecords(packets[0]);
    lo := FirstArrival(packets[0].recs);
    assert spans[..1] == [spans[0]] && spans[..1][0].a == lo;
    for i := 1 to |packets|
      invariant IsEarliest(spans[..i], lo)
    {
      assert HasRecords(packets[i]);
      EarlierOf(spans, i, lo);
      lo := Min(lo, FirstArrival(packets[i].recs));
    }
    assert spans[..|packets|] == spans;
  }

  /** One operation's row grew by `cost`, every other row is as before. */
  ghost predicate Booked(before: Costs, after: Costs, op: string, cost: Cost) {
    forall o :: At(after, FREE, o) == if o == op then Sum(At(before, FREE, o), cost) else At(before, FREE, o)
  }

  /** Each operation is charged exactly its own packets' costs. */
  ghost predicate ByOperation(table: Costs, lo: int, packets: seq<Packet>)
    requires forall i :: 0 <= i < |packets| ==> packets[i].recs != []
  {
    forall op :: At(table, FREE, op) == CostOfOp(lo, packets, op)
  }

  lemma BookedNext(before: Costs, after: Costs, lo: int, packets: seq<Packet>, n: nat)
    requires n < |packets| && forall i :: 0 <= i < |packets| ==> packets[i].recs != []
    requires ByOperation(before, lo, packets[..n])
    requires Booked(before, after, packets[n].op, CostAt(Frontier(lo, Spans(packets)[..n]), packets[n]))
    ensures ByOperation(after, lo, packets[..n + 1])
  {
    forall op
      ensures At(after, FREE, op) == CostOfOp(lo, packets[..n + 1], op)
    {
      CostStep(lo, packets, n, op);
    }
  }

  lemma BookedBy(table: Costs, op: string, cost: Cost)
    ensures Booked(table, AddTo(table, Sum, op, cost), op, cost)
  {
    assert Sum(FREE, cost) == cost;
    forall o
      ensures At(AddTo(table, Sum, op, cost), FREE, o) ==
              if o == op then Sum(At(table, FREE, o), cost) else At(table, FREE, o)
    {
      AddToAt(table, Sum, FREE, op, cost, o);
    }
  }

  lemma BookedTotals(table: Costs, op: string, cost: Cost)
    ensures Total(AddTo(table, Sum, op, cost), Charged) == Total(table, Charged) + Charged(cost)
    ensures Total(AddTo(table, Sum, op, cost), Packets) == Total(table, Packets) + Packets(cost)
  {
    AddToTotal(table, Sum, op, cost, Charged);
    AddToTotal(table, Sum, op, cost, Packets);
  }

  /** One packet of the walk: its charge beyond the frontier, split and booked under its operation. */
  method Book(p: Packet, f: int, table: Costs) returns (table2: Costs, f2: int, e: int)
    requires HasRecords(p)
    ensures e == SpanOf(p).e && f2 == Max(f, e)
    ensures Total(table2, Charged) == Total(table, Charged) + Charge(f, SpanOf(p))
    ensures Total(table2, Packets) == Total(table, Packets) + 1
    ensures Booked(table, table2, p.op, CostAt(f, p))
  {
    var a := FirstArrival(p.recs);
    var slow := Slowest(p.recs);
    e := slow.te;
    var c: nat := Max(0, e - Max(f, a));
    f2 := Max(f, e);
    var cost := SplitCharge(c, slow);
    BookedBy(table, p.op, cost);
    BookedTotals(table, p.op, cost);
    table2 := AddTo(table, Sum, p.op, cost);
  }

  lemma WalkStep(lo: int, ps: seq<Span>, n: nat)
    requires n < |ps|
    ensures Frontier(lo, ps[..n + 1]) == Max(Frontier(lo, ps[..n]), ps[n].e)
    ensures Charges(lo, ps[..n + 1]) == Charges(lo, ps[..n]) + Charge(Frontier(lo, ps[..n]), ps[n])
    ensures Idles(lo, ps[..n + 1]) == Idles(lo, ps[..n]) + Idle(Frontier(lo, ps[..n]), ps[n])
  {
    assert ps[..n + 1][..n] == ps[..n];
  }

  lemma CostStep(lo: int, packets: seq<Packet>, n: nat, op: string)
    requires n < |packets| && forall i :: 0 <= i < |packets| ==> packets[i].recs != []
    ensures CostOfOp(lo, packets[..n + 1], op) ==
            if op == packets[n].op
            then Sum(CostOfOp(lo, packets[..n], op), CostAt(Frontier(lo, Spans(packets)[..n]), packets[n]))
            else CostOfOp(lo, packets[..n], op)
  {
    assert packets[..n + 1][..n] == packets[..n];
    assert Spans(packets[..n]) == Spans(packets)[..n];
  }

  /** Each operation is charged exactly its own packets' costs; the table's columns sum to the charges, and
      with the idle gaps to the step's envelope. */
  method CriticalPath(packets: seq<Packet>) returns (table: Costs, lo: int, hi: int)
    requires Recorded(packets)
    ensures ByOperation(table, lo, packets)
    ensures Total(table, Packets) == |packets|
    ensures Total(table, Charged) == Charges(lo, Spans(packets))
    ensures Total(table, Charged) + Idles(lo, Spans(packets)) == hi - lo
    ensures IsEarliest(Spans(packets), lo) && forall i :: 0 <= i < |packets| ==> Spans(packets)[i].e <= hi
  {
    ghost var spans := Spans(packets);
    SpansForward(packets);
    var f: int := EarliestArrival(packets);
    lo, hi := f, 0;
    table := [];
    for i := 0 to |packets|
      invariant f == Frontier(lo, spans[..i])
      invariant hi == if i == 0 then 0 else f
      invariant Total(table, Charged) == Charges(lo, spans[..i]) && Total(table, Packets) == i
      invariant ByOperation(table, lo, packets[..i])
    {
      WalkStep(lo, spans, i);
      assert HasRecords(packets[i]) && lo <= spans[i].a <= spans[i].e;
      FrontierFromStart(lo, spans[..i]);
      var e;
      ghost var before := table;
      table, f, e := Book(packets[i], f, table);
      BookedNext(before, table, lo, packets, i);
      hi := Max(hi, e);
    }
    assert spans[..|packets|] == spans && packets[..|packets|] == packets;
    EnvelopeConserved(lo, spans);
    FrontierAbove(lo, spans);
  }

  // --- the chain walk -----------------------------------------------------

  /** A packet folded over its workgroups: opcode of the first, workgroups, first arrival, last ready, last and
      first end, first ready. */
  datatype Env = Env(op: nat, b: nat, arrive: nat, ready: nat, end: nat, firstEnd: nat, firstReady: nat)

  /** A trace slot; an end of 0 marks one that no workgroup reached. */
  datatype Slot = Slot(inst: nat, op: nat, ta: nat, tr: nat, te: nat)

  function Fold(prior: Option<Env>, s: Slot): Env {
    if prior.None? then Env(s.op, 1, s.ta, s.tr, s.te, s.te, s.tr)
    else
      var e := prior.value;
      Env(e.op, e.b + 1, Min(e.arrive, s.ta), Max(e.ready, s.tr), Max(e.end, s.te), Min(e.firstEnd, s.te),
          Min(e.firstReady, s.tr))
  }

  /** The slots of instruction `inst` that were reached. */
  function Reached(slots: seq<Slot>, inst: nat): seq<Slot> {
    if slots == [] then []
    else
      var last := slots[|slots| - 1];
      Reached(slots[..|slots| - 1], inst) + if last.te != 0 && last.inst == inst then [last] else []
  }

  /** `e` is the envelope of the workgroups `ss`. */
  ghost predicate Envelope(e: Env, ss: seq<Slot>) {
    && ss != [] && e.op == ss[0].op && e.b == |ss|
    && (forall s :: s in ss ==> e.arrive <= s.ta && e.firstReady <= s.tr <= e.ready && e.firstEnd <= s.te <= e.end)
    && (exists s :: s in ss && s.ta == e.arrive)
    && (exists s :: s in ss && s.tr == e.ready) && (exists s :: s in ss && s.tr == e.firstReady)
    && (exists s :: s in ss && s.te == e.end) && (exists s :: s in ss && s.te == e.firstEnd)
  }

  function FoldAll(ss: seq<Slot>): Option<Env> {
    if ss == [] then None else Some(Fold(FoldAll(ss[..|ss| - 1]), ss[|ss| - 1]))
  }

  /** Folding the workgroups one by one gives their envelope. */
  lemma {:induction false} FoldIsEnvelope(ss: seq<Slot>)
    requires ss != []
    ensures Envelope(FoldAll(ss).value, ss)
  {
    var init, last := ss[..|ss| - 1], ss[|ss| - 1];
    assert last in ss && forall x :: x in ss <==> x in init || x == last;
    if init != [] {
      FoldIsEnvelope(init);
    }
  }

  function Lookup(pk: map<nat, Env>, inst: nat): Option<Env> {
    if inst in pk then Some(pk[inst]) else None
  }

  ghost predicate Folded(pk: map<nat, Env>, slots: seq<Slot>) {
    forall inst :: Lookup(pk, inst) == FoldAll(Reached(slots, inst))
  }

  lemma FoldStep(pk: map<nat, Env>, slots: seq<Slot>, s: Slot)
    requires Folded(pk, slots)
    ensures Folded(if s.te == 0 then pk else pk[s.inst := Fold(Lookup(pk, s.inst), s)], slots + [s])
  {
    var all := slots + [s];
    assert all[..|all| - 1] == slots;
    var pk2 := if s.te == 0 then pk else pk[s.inst := Fold(Lookup(pk, s.inst), s)];
    forall inst
      ensures Lookup(pk2, inst) == FoldAll(Reached(all, inst))
    {
      var before := Reached(slots, inst);
      assert Lookup(pk, inst) == FoldAll(before);
      if s.te != 0 && s.inst == inst {
        assert (before + [s])[..|before + [s]| - 1] == before;
      } else {
        assert Reached(all, inst) == before;
      }
    }
  }

  /** Every instruction some workgroup reached, folded over exactly its workgroups. */
  method FoldTrace(slots: seq<Slot>) returns (pk: map<nat, Env>)
    ensures Folded(pk, slots)
  {
    pk := map[];
    for i := 0 to |slots|
      invariant Folded(pk, slots[..i])
    {
      var s := slots[i];
      FoldStep(pk, slots[..i], s);
      assert slots[..i + 1] == slots[..i] + [s];
      if s.te != 0 {
        pk := pk[s.inst := Fold(Lookup(pk, s.inst), s)];
      }
    }
    assert slots[..|slots|] == slots;
  }

  /** Workgroups that are ready before they end give a packet that is. */
  lemma EnvelopeOrdered(e: Env, ss: seq<Slot>)
    requires Envelope(e, ss) && forall s :: s in ss ==> s.ta <= s.tr <= s.te
    ensures e.arrive <= e.ready <= e.end
  {
  }

  function EnvSpans(chain: seq<Env>): seq<Span> {
    seq(|chain|, i requires 0 <= i < |chain| => Span(chain[i].arrive, chain[i].end))
  }

  /** Gate and body of one packet after the previous end, in ticks. */
  function Gate(start: int, e: Env): nat { Max(0, e.ready - start) }

  function Body(start: int, e: Env): nat { Max(0, e.end - Max(e.ready, start)) }

  /** A packet's gate and body are its charge exactly when it is ready by the end of the interval charged. */
  lemma GateAndBodyIff(f: int, e: Env)
    ensures Gate(Max(f, e.arrive), e) + Body(Max(f, e.arrive), e) == Charge(f, Span(e.arrive, e.end)) <==>
            e.ready <= Max(e.end, Max(f, e.arrive))
  {
  }

  function LatestEnd(chain: seq<Env>): int
    requires chain != []
  {
    if |chain| == 1 then chain[0].end else Max(LatestEnd(chain[..|chain| - 1]), chain[|chain| - 1].end)
  }

  /** Where a packet's clock starts: at its arrival, or at the latest end before it. */
  function StartOf(before: seq<Env>, e: Env): int {
    if before == [] then e.arrive else Max(LatestEnd(before), e.arrive)
  }

  function Gates(chain: seq<Env>): nat {
    if chain == [] then 0
    else Gates(chain[..|chain| - 1]) + Gate(StartOf(chain[..|chain| - 1], chain[|chain| - 1]), chain[|chain| - 1])
  }

  function Bodies(chain: seq<Env>): nat {
    if chain == [] then 0
    else Bodies(chain[..|chain| - 1]) + Body(StartOf(chain[..|chain| - 1], chain[|chain| - 1]), chain[|chain| - 1])
  }

  /** A row of the report: packets, gate, body and straggler ticks. */
  datatype Row = Row(n: nat, gate: nat, body: nat, straggler: int)

  function SumRows(x: Row, y: Row): Row {
    Row(x.n + y.n, x.gate + y.gate, x.body + y.body, x.straggler + y.straggler)
  }

  const NO_ROW := Row(0, 0, 0, 0)

  function RowCount(x: Row): nat { x.n }

  function RowGate(x: Row): nat { x.gate }

  function RowBody(x: Row): nat { x.body }

  function RowFor(start: int, e: Env): Row { Row(1, Gate(start, e), Body(start, e), e.end - e.firstEnd) }

  /** The row of the packets with opcode `k.0` and `k.1` workgroups. */
  function RowOf(chain: seq<Env>, k: (nat, nat)): Row {
    if chain == [] then NO_ROW
    else
      var init, e := chain[..|chain| - 1], chain[|chain| - 1];
      if (e.op, e.b) == k then SumRows(RowOf(init, k), RowFor(StartOf(init, e), e)) else RowOf(init, k)
  }

  /** Transitions between packet widths: how many, and the gate ticks of the second packets. */
  datatype Hop = Hop(n: nat, gate: nat)

  function SumHops(x: Hop, y: Hop): Hop { Hop(x.n + y.n, x.gate + y.gate) }

  const NO_HOP := Hop(0, 0)

  function HopCount(x: Hop): nat { x.n }

  function HopGate(x: Hop): nat { x.gate }

  /** The transitions from a packet with `k.0` workgroups to one with `k.1`. */
  function HopOf(chain: seq<Env>, k: (nat, nat)): Hop {
    if |chain| < 2 then NO_HOP
    else
      var init, e := chain[..|chain| - 1], chain[|chain| - 1];
      if (init[|init| - 1].b, e.b) == k then SumHops(HopOf(init, k), Hop(1, Gate(StartOf(init, e), e)))
      else HopOf(init, k)
  }

  type Rows = Table<(nat, nat), Row>

  type Hops = Table<(nat, nat), Hop>

  /** Each row is exactly that of its own packets. */
  ghost predicate ByKind(rows: Rows, chain: seq<Env>) {
    forall k :: At(rows, NO_ROW, k) == RowOf(chain, k)
  }

  ghost predicate ByHop(hops: Hops, chain: seq<Env>) {
    forall k :: At(hops, NO_HOP, k) == HopOf(chain, k)
  }

  lemma RowNext(rows: Rows, chain: seq<Env>, n: nat, start: int)
    requires n < |chain| && ByKind(rows, chain[..n]) && start == StartOf(chain[..n], chain[n])
    ensures ByKind(AddTo(rows, SumRows, (chain[n].op, chain[n].b), RowFor(start, chain[n])), chain[..n + 1])
  {
    var e := chain[n];
    assert chain[..n + 1][..n] == chain[..n];
    forall k
      ensures At(AddTo(rows, SumRows, (e.op, e.b), RowFor(start, e)), NO_ROW, k) == RowOf(chain[..n + 1], k)
    {
      AddToAt(rows, SumRows, NO_ROW, (e.op, e.b), RowFor(start, e), k);
    }
  }

  lemma HopNext(hops: Hops, chain: seq<Env>, n: nat, start: int)
    requires 0 < n < |chain| && ByHop(hops, chain[..n]) && start == StartOf(chain[..n], chain[n])
    ensures ByHop(AddTo(hops, SumHops, (chain[n - 1].b, chain[n].b), Hop(1, Gate(start, chain[n]))), chain[..n + 1])
  {
    var key, hop := (chain[n - 1].b, chain[n].b), Hop(1, Gate(start, chain[n]));
    assert SumHops(NO_HOP, hop) == hop;
    forall k
      ensures At(AddTo(hops, SumHops, key, hop), NO_HOP, k) == HopOf(chain[..n + 1], k)
    {
      AddToAt(hops, SumHops, NO_HOP, key, hop, k);
      HopStep(chain, n, k);
    }
  }

  lemma HopStep(chain: seq<Env>, n: nat, k: (nat, nat))
    requires 0 < n < |chain|
    ensures HopOf(chain[..n + 1], k) ==
            if (chain[n - 1].b, chain[n].b) == k
            then SumHops(HopOf(chain[..n], k), Hop(1, Gate(StartOf(chain[..n], chain[n]), chain[n])))
            else HopOf(chain[..n], k)
  {
    assert chain[..n + 1][..n] == chain[..n];
  }

  /** One packet under its opcode and width. */
  method BookRow(rows: Rows, ghost chain: seq<Env>, ghost n: nat, e: Env, start: int) returns (rows2: Rows)
    requires n < |chain| && e == chain[n] && ByKind(rows, chain[..n]) && start == StartOf(chain[..n], e)
    ensures ByKind(rows2, chain[..n + 1])
    ensures Total(rows2, RowCount) == Total(rows, RowCount) + 1
    ensures Total(rows2, RowGate) == Total(rows, RowGate) + Gate(start, e)
    ensures Total(rows2, RowBody) == Total(rows, RowBody) + Body(start, e)
  {
    rows2 := AddTo(rows, SumRows, (e.op, e.b), RowFor(start, e));
    RowNext(rows, chain, n, start);
    AddToTotal(rows, SumRows, (e.op, e.b), RowFor(start, e), RowCount);
    AddToTotal(rows, SumRows, (e.op, e.b), RowFor(start, e), RowGate);
    AddToTotal(rows, SumRows, (e.op, e.b), RowFor(start, e), RowBody);
  }

  /** One packet's gate under its transition, unless it is the first. */
  method BookHop(hops: Hops, chain: seq<Env>, n: nat, e: Env, start: int) returns (hops2: Hops)
    requires n < |chain| && e == chain[n] && ByHop(hops, chain[..n]) && start == StartOf(chain[..n], e)
    ensures ByHop(hops2, chain[..n + 1])
    ensures Total(hops2, HopCount) == Total(hops, HopCount) + if n > 0 then 1 else 0
    ensures Total(hops2, HopGate) == Total(hops, HopGate) + if n > 0 then Gate(start, e) else 0
  {
    if n == 0 {
      assert forall k :: HopOf(chain[..1], k) == HopOf(chain[..0], k) == NO_HOP;
      return hops;
    }
    var key, hop := (chain[n - 1].b, e.b), Hop(1, Gate(start, e));
    hops2 := AddTo(hops, SumHops, key, hop);
    HopNext(hops, chain, n, start);
    AddToTotal(hops, SumHops, key, hop, HopCount);
    AddToTotal(hops, SumHops, key, hop, HopGate);
  }

  /** Each packet is ready between its arrival and its end. */
  ghost predicate Ordered(chain: seq<Env>) {
    forall i :: 0 <= i < |chain| ==> chain[i].arrive <= chain[i].ready <= chain[i].end
  }

  lemma {:induction false} LatestEndIsFrontier(chain: seq<Env>)
    requires chain != [] && Ordered(chain)
    ensures LatestEnd(chain) == Frontier(chain[0].arrive, EnvSpans(chain))
  {
    var n, ps := |chain| - 1, EnvSpans(chain);
    assert ps[..n] == EnvSpans(chain[..n]);
    if n > 0 {
      LatestEndIsFrontier(chain[..n]);
    }
  }

  /** Gates and bodies of ordered packets are what the frontier charges. */
  lemma {:induction false} GatesAndBodies(chain: seq<Env>)
    requires chain != [] && Ordered(chain)
    ensures Gates(chain) + Bodies(chain) == Charges(chain[0].arrive, EnvSpans(chain))
  {
    var n := |chain| - 1;
    var init, e, ps := chain[..n], chain[n], EnvSpans(chain);
    assert ps[..n] == EnvSpans(init);
    GateAndBodyIff(Frontier(chain[0].arrive, ps[..n]), e);
    if init != [] {
      GatesAndBodies(init);
      LatestEndIsFrontier(init);
    }
  }

  /** For ordered packets, what the gates and bodies leave of the span is the idle gaps. */
  lemma ResidualIsIdle(chain: seq<Env>)
    requires chain != [] && Ordered(chain)
    ensures LatestEnd(chain) - chain[0].arrive - Gates(chain) - Bodies(chain) ==
            Idles(chain[0].arrive, EnvSpans(chain))
  {
    GatesAndBodies(chain);
    LatestEndIsFrontier(chain);
    EnvelopeConserved(chain[0].arrive, EnvSpans(chain));
  }

  lemma ChainStep(chain: seq<Env>, n: nat)
    requires n < |chain|
    ensures Gates(chain[..n + 1]) == Gates(chain[..n]) + Gate(StartOf(chain[..n], chain[n]), chain[n])
    ensures Bodies(chain[..n + 1]) == Bodies(chain[..n]) + Body(StartOf(chain[..n], chain[n]), chain[n])
    ensures LatestEnd(chain[..n + 1]) == if n == 0 then chain[n].end else Max(LatestEnd(chain[..n]), chain[n].end)
  {
    assert chain[..n + 1][..n] == chain[..n];
  }

  // --- the walk in ticks ----------------------------------------------------

  /** Packet `n` is charged from `s` on: from its arrival, or from the latest end before it if that is later. */
  ghost predicate StartsAt(chain: seq<Env>, n: nat, s: int)
    requires n < |chain|
  {
    && chain[n].arrive <= s && (forall k :: 0 <= k < n ==> chain[k].end <= s)
    && (s == chain[n].arrive || exists k :: 0 <= k < n && chain[k].end == s)
  }

  ghost predicate Starts(chain: seq<Env>, starts: seq<int>) {
    |starts| == |chain| && forall n :: 0 <= n < |chain| ==> StartsAt(chain, n, starts[n])
  }

  /** The sum of `of` over the picked numbers below `n`. */
  ghost function Counted(n: nat, of: nat -> int, picked: nat -> bool): int {
    if n == 0 then 0 else Counted(n - 1, of, picked) + if picked(n - 1) then of(n - 1) else 0
  }

  /** How many ticks packet `n` waits to be ready after its start. */
  ghost function WaitTicks(chain: seq<Env>, starts: seq<int>): nat -> int {
    (n: nat) => if n < |chain| && n < |starts| then |Ticks(starts[n], chain[n].ready)| else 0
  }

  /** How many ticks it runs after both its start and its ready time. */
  ghost function RunTicks(chain: seq<Env>, starts: seq<int>): nat -> int {
    (n: nat) =>
      if n < |chain| && n < |starts|
      then |Ticks(if starts[n] < chain[n].ready then chain[n].ready else starts[n], chain[n].end)| else 0
  }

  /** How far apart its first and its last workgroup end. */
  ghost function Spread(chain: seq<Env>): nat -> int {
    (n: nat) => if n < |chain| then chain[n].end - chain[n].firstEnd else 0
  }

  ghost function One(): nat -> int { (n: nat) => 1 }

  ghost function Every(): nat -> bool { (n: nat) => true }

  ghost function OfKind(chain: seq<Env>, k: (nat, nat)): nat -> bool {
    (n: nat) => n < |chain| && chain[n].op == k.0 && chain[n].b == k.1
  }

  /** Packet `n` has `k.1` workgroups and the one before it `k.0`. */
  ghost function OfHop(chain: seq<Env>, k: (nat, nat)): nat -> bool {
    (n: nat) => 0 < n < |chain| && chain[n - 1].b == k.0 && chain[n].b == k.1
  }

  ghost predicate RowCounts(row: Row, chain: seq<Env>, starts: seq<int>, n: nat, k: (nat, nat)) {
    && row.n == Counted(n, One(), OfKind(chain, k))
    && row.gate == Counted(n, WaitTicks(chain, starts), OfKind(chain, k))
    && row.body == Counted(n, RunTicks(chain, starts), OfKind(chain, k))
    && row.straggler == Counted(n, Spread(chain), OfKind(chain, k))
  }

  ghost predicate HopCounts(hop: Hop, chain: seq<Env>, starts: seq<int>, n: nat, k: (nat, nat)) {
    && hop.n == Counted(n, One(), OfHop(chain, k))
    && hop.gate == Counted(n, WaitTicks(chain, starts), OfHop(chain, k))
  }

  lemma {:induction false} LatestEndIs(chain: seq<Env>)
    requires chain != []
    ensures forall k :: 0 <= k < |chain| ==> chain[k].end <= LatestEnd(chain)
    ensures exists k :: 0 <= k < |chain| && chain[k].end == LatestEnd(chain)
  {
    var n := |chain| - 1;
    if n == 0 {
      assert chain[0].end == LatestEnd(chain);
    } else {
      var init := chain[..n];
      LatestEndIs(init);
      var k :| 0 <= k < n && init[k].end == LatestEnd(init);
      assert chain[k].end == LatestEnd(init);
      forall j | 0 <= j < |chain|
        ensures chain[j].end <= LatestEnd(chain)
      {
        if j < n {
          assert init[j].end <= LatestEnd(init);
        }
      }
      var m := if LatestEnd(init) < chain[n].end then n else k;
      assert chain[m].end == LatestEnd(chain);
    }
  }

  ghost function StartsOf(chain: seq<Env>): seq<int> {
    seq(|chain|, n requires 0 <= n < |chain| => StartOf(chain[..n], chain[n]))
  }

  lemma StartsAreStarts(chain: seq<Env>)
    ensures Starts(chain, StartsOf(chain))
  {
    forall n | 0 <= n < |chain|
      ensures StartsAt(chain, n, StartsOf(chain)[n])
    {
      if n > 0 {
        LatestEndIs(chain[..n]);
        assert forall k :: 0 <= k < n ==> chain[..n][k] == chain[k];
      }
    }
  }

  /** What one packet adds, in ticks. */
  lemma PacketTicks(chain: seq<Env>, n: nat)
    requires n < |chain|
    ensures var s := StartOf(chain[..n], chain[n]);
            && Gate(s, chain[n]) == WaitTicks(chain, StartsOf(chain))(n)
            && Body(s, chain[n]) == RunTicks(chain, StartsOf(chain))(n)
  {
    var s := StartOf(chain[..n], chain[n]);
    assert StartsOf(chain)[n] == s;
    TicksCount(s, chain[n].ready);
    TicksCount(Max(s, chain[n].ready), chain[n].end);
  }

  lemma {:induction false} TotalsInTicks(chain: seq<Env>, n: nat)
    requires n <= |chain|
    ensures Gates(chain[..n]) == Counted(n, WaitTicks(chain, StartsOf(chain)), Every())
    ensures Bodies(chain[..n]) == Counted(n, RunTicks(chain, StartsOf(chain)), Every())
  {
    if n > 0 {
      TotalsInTicks(chain, n - 1);
      ChainStep(chain, n - 1);
      PacketTicks(chain, n - 1);
    }
  }

  lemma {:induction false} RowInTicks(chain: seq<Env>, n: nat, k: (nat, nat))
    requires n <= |chain|
    ensures RowCounts(RowOf(chain[..n], k), chain, StartsOf(chain), n, k)
  {
    if n > 0 {
      RowInTicks(chain, n - 1, k);
      assert chain[..n][..n - 1] == chain[..n - 1];
      PacketTicks(chain, n - 1);
    }
  }

  lemma {:induction false} HopInTicks(chain: seq<Env>, n: nat, k: (nat, nat))
    requires n <= |chain|
    ensures HopCounts(HopOf(chain[..n], k), chain, StartsOf(chain), n, k)
  {
    if n > 0 {
      HopInTicks(chain, n - 1, k);
      if n > 1 {
        HopStep(chain, n - 1, k);
        PacketTicks(chain, n - 1);
      }
    }
  }

  lemma WalkInTicks(chain: seq<Env>, rows: Rows, hops: Hops)
    requires ByKind(rows, chain) && ByHop(hops, chain)
    ensures Gates(chain) == Counted(|chain|, WaitTicks(chain, StartsOf(chain)), Every())
    ensures Bodies(chain) == Counted(|chain|, RunTicks(chain, StartsOf(chain)), Every())
    ensures forall k :: RowCounts(At(rows, NO_ROW, k), chain, StartsOf(chain), |chain|, k)
    ensures forall k :: HopCounts(At(hops, NO_HOP, k), chain, StartsOf(chain), |chain|, k)
  {
    assert chain[..|chain|] == chain;
    TotalsInTicks(chain, |chain|);
    forall k
      ensures RowCounts(At(rows, NO_ROW, k), chain, StartsOf(chain), |chain|, k)
      ensures HopCounts(At(hops, NO_HOP, k), chain, StartsOf(chain), |chain|, k)
    {
      RowInTicks(chain, |chain|, k);
      HopInTicks(chain, |chain|, k);
    }
  }

  /** The rows and transitions of `n` packets add up to their number and ticks. */
  ghost predicate Tallied(rows: Rows, hops: Hops, chain: seq<Env>, n: nat, gates: nat, bodies: nat)
    requires chain != []
  {
    && Total(rows, RowCount) == n && Total(rows, RowGate) == gates && Total(rows, RowBody) == bodies
    && Total(hops, HopCount) == (if n == 0 then 0 else n - 1)
    && Total(hops, HopGate) == (if n == 0 then 0 else gates - Gate(chain[0].arrive, chain[0]))
  }

  /** Rows and transitions are those of their own packets and partition the totals; for ordered packets, gates
      and bodies account for the span less the idle gaps, which are the printed residual. */
  method ChainWalk(chain: seq<Env>)
    returns (rows: Rows, hops: Hops, gates: nat, bodies: nat, span: int, ghost starts: seq<int>)
    requires chain != []
    ensures Starts(chain, starts)
    ensures gates == Counted(|chain|, WaitTicks(chain, starts), Every())
    ensures bodies == Counted(|chain|, RunTicks(chain, starts), Every())
    ensures forall k :: RowCounts(At(rows, NO_ROW, k), chain, starts, |chain|, k)
    ensures forall k :: HopCounts(At(hops, NO_HOP, k), chain, starts, |chain|, k)
    ensures ByKind(rows, chain) && ByHop(hops, chain)
    ensures gates == Gates(chain) && bodies == Bodies(chain) && Tallied(rows, hops, chain, |chain|, gates, bodies)
    ensures span == LatestEnd(chain) - chain[0].arrive
    ensures Ordered(chain) ==> span - gates - bodies == Idles(chain[0].arrive, EnvSpans(chain))
  {
    var prev: Option<int> := None;
    rows, hops, gates, bodies := [], [], 0, 0;
    for i := 0 to |chain|
      invariant if i == 0 then prev.None? else prev == Some(LatestEnd(chain[..i]))
      invariant ByKind(rows, chain[..i]) && ByHop(hops, chain[..i])
      invariant gates == Gates(chain[..i]) && bodies == Bodies(chain[..i])
      invariant Tallied(rows, hops, chain, i, gates, bodies)
    {
      var e := chain[i];
      ChainStep(chain, i);
      var start := if prev.None? then e.arrive else Max(prev.value, e.arrive);
      rows := BookRow(rows, chain, i, e, start);
      hops := BookHop(hops, chain, i, e, start);
      gates := gates + Gate(start, e);
      bodies := bodies + Body(start, e);
      prev := Some(if prev.None? then e.end else Max(prev.value, e.end));
    }
    assert chain[..|chain|] == chain;
    span := prev.value - chain[0].arrive;
    starts := StartsOf(chain);
    StartsAreStarts(chain);
    WalkInTicks(chain, rows, hops);
    if Ordered(chain) {
      ResidualIsIdle(chain);
    }
  }
}
