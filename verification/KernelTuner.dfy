/** Report validation, the gates of a candidate and the whole run of `gemma4_h100_kernel_tuner.py`. */
module KernelTuner {
  import opened Common
  import opened Statistics
  import opened TrialSchedule
  import opened WinnerChoice
  import KernelVerify

  const WARMUPS: nat := 10
  const ITERATIONS: nat := 50

  datatype Telemetry = Telemetry(smClock: real, memoryClock: real, power: real)

  /** What a benchmark command reported. */
  datatype Report = Report(profileKey: string, packet: Option<string>, variant: string, compiled: Resource,
                           trial: nat, arm: Arm, isolated: bool, correct: bool, cacheState: string,
                           telemetry: Telemetry, counters: map<string, real>,
                           warmups: nat, iterations: nat, samples: seq<real>)

  datatype Reading = Reading(samples: seq<real>, cacheState: string, telemetry: Telemetry,
                             counters: map<string, real>)

  predicate Positive(s: seq<real>) {
    forall i :: 0 <= i < |s| ==> s[i] > 0.0
  }

  predicate Sound(r: Reading) {
    && |r.samples| == ITERATIONS && Positive(r.samples)
    && r.telemetry.smClock > 0.0 && r.telemetry.memoryClock > 0.0
  }

  type Measured = r: Reading | Sound(r)
    ghost witness Reading(seq(ITERATIONS, i => 1.0), "hot", Telemetry(1.0, 1.0, 1.0), map[])

  predicate IdentityOk(r: Report, p: Profile, v: Variant) {
    && r.profileKey == p.key && r.variant == v.name && r.compiled == v.compiled
    && (p.packet.Some? ==> r.packet == p.packet)
  }

  predicate CountersOk(counters: map<string, real>, limits: map<string, real>) {
    && (forall c :: c in counters ==> c != "" && counters[c] >= 0.0)
    && (forall c :: c in limits ==> c in counters && counters[c] <= limits[c])
  }

  predicate TelemetryOk(t: Telemetry) {
    t.smClock > 0.0 && t.memoryClock > 0.0 && t.power > 0.0
  }

  function Validate(r: Report, p: Profile, v: Variant, trial: nat, arm: Arm): Result<Measured> {
    if !IdentityOk(r, p, v) then Failure("identity")
    else if r.trial != trial then Failure("trial")
    else if r.arm != arm then Failure("arm")
    else if !r.isolated || !r.correct then Failure("not isolated")
    else if r.cacheState != "hot" && r.cacheState != "cold" then Failure("cache")
    else if !TelemetryOk(r.telemetry) then Failure("telemetry")
    else if !CountersOk(r.counters, v.limits) then Failure("counters")
    else if r.warmups != WARMUPS || r.iterations != ITERATIONS then Failure("protocol")
    else if |r.samples| != ITERATIONS || !Positive(r.samples) then Failure("samples")
    else Success(Reading(r.samples, r.cacheState, r.telemetry, r.counters))
  }

  /** A report is accepted exactly when it is of this profile, variant, trial and arm, was isolated and correct, on a
      hot or cold cache, with positive clocks and power, counters that are not negative and within the variant's
      limits, after 10 warm-ups, with 50 positive samples; and then its reading is kept. */
  lemma ReportAcceptedIff(r: Report, p: Profile, v: Variant, trial: nat, arm: Arm)
    ensures Validate(r, p, v, trial, arm).Success? <==>
              && r.profileKey == p.key && r.variant == v.name && r.compiled == v.compiled
              && (p.packet == None || r.packet == p.packet)
              && r.trial == trial && r.arm == arm && r.isolated && r.correct && r.cacheState in {"hot", "cold"}
              && r.telemetry.smClock > 0.0 && r.telemetry.memoryClock > 0.0 && r.telemetry.power > 0.0
              && "" !in r.counters && (forall x :: x in r.counters.Values ==> x >= 0.0)
              && (forall c :: c in v.limits ==> c in r.counters && !(r.counters[c] > v.limits[c]))
              && r.warmups == 10 && r.iterations == 50 && |r.samples| == 50 && forall x :: x in r.samples ==> x > 0.0
    ensures Validate(r, p, v, trial, arm).Success? ==>
              Validate(r, p, v, trial, arm).value == Reading(r.samples, r.cacheState, r.telemetry, r.counters)
  {
    forall c | c in r.counters
      ensures r.counters[c] in r.counters.Values
    {
    }
    forall i | 0 <= i < |r.samples|
      ensures r.samples[i] in r.samples
    {
    }
  }

  /** A benchmark command, by profile key, variant name, trial and arm. */
  type Command = (string, string, nat, Arm) -> Report

  function Checked(command: Command): Runner<Measured> {
    (e: Entry, v: Variant, trial: nat, arm: Arm) =>
      Validate(command(e.profile.key, v.name, trial, arm), e.profile, v, trial, arm)
  }

  type Record = Timing<Measured>

  // --- statistics of a schedule -------------------------------------------

  function MedianOf(r: Record): (m: real)
    ensures m > 0.0
  {
    PositiveMembers(r.body.samples);
    MedianPositive(r.body.samples);
    Median(r.body.samples)
  }

  lemma PositiveMembers(s: seq<real>)
    requires Positive(s)
    ensures forall x :: x in s ==> x > 0.0
  {
  }

  function Medians(records: seq<Record>): (m: seq<real>)
    ensures |m| == |records| && Positive(m)
  {
    seq(|records|, i requires 0 <= i < |records| => MedianOf(records[i]))
  }

  /** Per trial, the mean of the two anchors. */
  function AnchorMeans(pairs: seq<Anchors<Measured>>): (m: seq<real>)
    ensures |m| == |pairs| && Positive(m)
  {
    seq(|pairs|, i requires 0 <= i < |pairs| => (MedianOf(pairs[i].0) + MedianOf(pairs[i].1)) / 2.0)
  }

  function Samples(records: seq<Record>): (s: seq<real>)
    ensures Positive(s) && |s| == |records| * ITERATIONS
  {
    if records == [] then [] else Samples(records[..|records| - 1]) + records[|records| - 1].body.samples
  }

  function RelativeMad(s: seq<real>): real
    requires s != [] && Positive(s)
  {
    PositiveMembers(s);
    MedianPositive(s);
    Mad(s) / Median(s)
  }

  function Larger(x: real, y: real): real { if x < y then y else x }

  function AnchorNoise(pairs: seq<Anchors<Measured>>): (n: seq<real>)
    ensures |n| == |pairs|
  {
    seq(|pairs|, i requires 0 <= i < |pairs| =>
      var (before, after) := pairs[i];
      Abs(MedianOf(before) - MedianOf(after)) + 2.0 * Larger(Mad(before.body.samples), Mad(after.body.samples)))
  }

  function Ratios(a: seq<real>, b: seq<real>): (r: seq<real>)
    requires |a| == |b| && Positive(b)
    ensures |r| == |a|
  {
    seq(|a|, i requires 0 <= i < |a| => a[i] / b[i])
  }

  function Differences(a: seq<real>, b: seq<real>): (d: seq<real>)
    requires |a| == |b|
    ensures |d| == |a|
  {
    seq(|a|, i requires 0 <= i < |a| => a[i] - b[i])
  }

  // --- gates --------------------------------------------------------------

  predicate CacheMatched(records: seq<Record>, pairs: seq<Anchors<Measured>>) {
    |records| == |pairs| &&
    forall i :: 0 <= i < |records| ==>
      records[i].body.cacheState == pairs[i].0.body.cacheState == pairs[i].1.body.cacheState
  }

  predicate Near(candidate: Telemetry, anchor: Telemetry, drift: real)
    requires anchor.smClock > 0.0 && anchor.memoryClock > 0.0
  {
    && Abs(candidate.smClock / anchor.smClock - 1.0) <= drift
    && Abs(candidate.memoryClock / anchor.memoryClock - 1.0) <= drift
  }

  predicate ClocksMatched(records: seq<Record>, pairs: seq<Anchors<Measured>>, drift: real) {
    |records| == |pairs| &&
    forall i :: 0 <= i < |records| ==>
      && Near(records[i].body.telemetry, pairs[i].0.body.telemetry, drift)
      && Near(records[i].body.telemetry, pairs[i].1.body.telemetry, drift)
  }

  predicate CounterPresent(name: string, records: seq<Record>, pairs: seq<Anchors<Measured>>) {
    && (forall i :: 0 <= i < |records| ==> name in records[i].body.counters)
    && (forall i :: 0 <= i < |pairs| ==> name in pairs[i].0.body.counters && name in pairs[i].1.body.counters)
  }

  function Moved(changes: seq<real>, d: Direction): nat {
    if changes == [] then 0
    else
      var init, last := changes[..|changes| - 1], changes[|changes| - 1];
      Moved(init, d) + if (if d == Increase then last > 0.0 else last < 0.0) then 1 else 0
  }

  /** A counter moved as predicted in at least three trials and by enough in the median. */
  predicate CounterPassed(name: string, d: Direction, records: seq<Record>, pairs: seq<Anchors<Measured>>,
                          minimum: real)
    requires |records| == |pairs| > 0
  {
    && CounterPresent(name, records, pairs)
    && var anchors := seq(|pairs|, i requires 0 <= i < |pairs| =>
         (pairs[i].0.body.counters[name] + pairs[i].1.body.counters[name]) / 2.0);
       var runs := seq(|records|, i requires 0 <= i < |records| => records[i].body.counters[name]);
       ShiftedEnough(d, runs, anchors, minimum)
  }

  predicate ShiftedEnough(d: Direction, runs: seq<real>, anchors: seq<real>, minimum: real)
    requires |runs| == |anchors| > 0
  {
    var reference, candidate := Median(anchors), Median(runs);
    && Moved(Differences(runs, anchors), d) >= 3
    && if reference == 0.0 then d == Increase && candidate > 0.0
       else (candidate - reference) / reference * (if d == Increase then 1.0 else -1.0) >= minimum
  }

  predicate CountersPassed(v: Variant, records: seq<Record>, pairs: seq<Anchors<Measured>>, minimum: real)
    requires |records| == |pairs| > 0
  {
    forall c :: c in v.expected ==> CounterPassed(c, v.expected[c], records, pairs, minimum)
  }

  // --- judging a variant --------------------------------------------------

  predicate NoSlowTrial(reference: seq<real>, candidate: seq<real>, slowdown: real) {
    |reference| == |candidate| &&
    forall i :: 0 <= i < |reference| ==> candidate[i] <= reference[i] * slowdown
  }

  function ReferenceRow(v: Variant, pairs: seq<Anchors<Measured>>): Row
    requires pairs != []
  {
    var reference := AnchorMeans(pairs);
    Row(v, Median(reference), Median(Ratios(reference, reference)), Median(Differences(reference, reference)),
        Median(AnchorNoise(pairs)), true)
  }

  /** The figures the gates look at, trial by trial. */
  datatype Figures = Figures(reference: seq<real>, noise: seq<real>,
                             candidate: seq<real>, ratio: seq<real>, saving: seq<real>)

  function FiguresFrom(records: seq<Record>, pairs: seq<Anchors<Measured>>): (f: Figures)
    requires |records| == |pairs|
    ensures |f.reference| == |f.noise| == |f.candidate| == |f.ratio| == |f.saving| == |pairs|
    ensures Positive(f.reference) && Positive(f.candidate)
  {
    var reference, medians := AnchorMeans(pairs), Medians(records);
    Figures(reference, AnchorNoise(pairs), medians, Ratios(reference, medians), Differences(reference, medians))
  }

  predicate Passes(v: Variant, f: Figures, records: seq<Record>, anchors: seq<Record>,
                   pairs: seq<Anchors<Measured>>, g: Gates)
    requires |records| == |pairs| > 0 && anchors != [] && f == FiguresFrom(records, pairs)
  {
    && Median(f.ratio) >= g.minimumSpeedup
    && Median(f.saving) > Median(f.noise)
    && NoSlowTrial(f.reference, f.candidate, g.maximumTrialSlowdown)
    && RelativeMad(Samples(records)) <= g.maximumRelativeMad
    && RelativeMad(Samples(anchors)) <= g.maximumRelativeMad
    && CacheMatched(records, pairs) && ClocksMatched(records, pairs, g.maximumClockDrift)
    && CountersPassed(v, records, pairs, g.minimumCounterChange)
    && (g.allowSpills || ResourceClean(v.compiled))
  }

  function CandidateRow(v: Variant, records: seq<Record>, anchors: seq<Record>, pairs: seq<Anchors<Measured>>,
                        g: Gates): Row
    requires |records| == |pairs| > 0 && anchors != []
  {
    var f := FiguresFrom(records, pairs);
    Row(v, Median(f.candidate), Median(f.ratio), Median(f.saving), Median(f.noise),
        Passes(v, f, records, anchors, pairs, g))
  }

  function Judging(g: Gates): Judge<Measured> {
    (v: Variant, records: seq<Record>, anchors: seq<Record>) requires RecordsOk(v, records) && ReferenceOk(anchors) =>
      var pairs := AnchorPairs(anchors);
      if v.reference then ReferenceRow(v, pairs) else CandidateRow(v, records, anchors, pairs, g)
  }

  lemma NoiseFloorNonNegative(pairs: seq<Anchors<Measured>>)
    requires pairs != []
    ensures Median(AnchorNoise(pairs)) >= 0.0
  {
    var noise := AnchorNoise(pairs);
    forall i | 0 <= i < |noise|
      ensures noise[i] >= 0.0
    {
      StatsSane(pairs[i].0.body.samples);
      StatsSane(pairs[i].1.body.samples);
    }
    MadNonNegative(noise);
  }

  lemma MedianOfPositive(s: seq<real>)
    requires s != [] && Positive(s)
    ensures Median(s) > 0.0
  {
    PositiveMembers(s);
    MedianPositive(s);
  }

  lemma ReferenceRowFair(v: Variant, pairs: seq<Anchors<Measured>>, g: Gates)
    requires pairs != [] && v.reference
    ensures FairRow(ReferenceRow(v, pairs), v, g)
  {
    MedianOfPositive(AnchorMeans(pairs));
  }

  lemma CandidateRowFair(v: Variant, records: seq<Record>, anchors: seq<Record>, pairs: seq<Anchors<Measured>>,
                         g: Gates)
    requires |records| == |pairs| > 0 && anchors != [] && !v.reference
    ensures FairRow(CandidateRow(v, records, anchors, pairs, g), v, g)
  {
    NoiseFloorNonNegative(pairs);
    MedianOfPositive(Medians(records));
  }

  /** The tuner's judgement always keeps the reference and never passes a candidate below its gates. */
  lemma JudgingIsFair(g: Gates)
    ensures Fair(Judging(g), g)
  {
    forall v: Variant, records: seq<Record>, anchors: seq<Record> | RecordsOk(v, records) && ReferenceOk(anchors)
      ensures Judging(g).requires(v, records, anchors) && FairRow(Judging(g)(v, records, anchors), v, g)
    {
      var pairs := AnchorPairs(anchors);
      if v.reference {
        ReferenceRowFair(v, pairs, g);
      } else {
        CandidateRowFair(v, records, anchors, pairs, g);
      }
    }
  }

  // --- what a judgement says of the reports ---------------------------------

  /** A candidate's readings and the anchors around them, trial by trial. */
  datatype History = History(runs: seq<Measured>, before: seq<Measured>, after: seq<Measured>)

  predicate Paired(h: History) { |h.before| == |h.after| == TRIALS }

  predicate Full(h: History) { Paired(h) && |h.runs| == TRIALS }

  /** The larger of the anchors' distance apart, taken both ways, and twice the larger of their deviations. */
  predicate IsNoise(x: real, before: Measured, after: Measured) {
    var a, b := Median(before.samples), Median(after.samples);
    var c, d := 2.0 * Mad(before.samples), 2.0 * Mad(after.samples);
    && x >= a - b + c && x >= a - b + d && x >= b - a + c && x >= b - a + d
    && (x == a - b + c || x == a - b + d || x == b - a + c || x == b - a + d)
  }

  predicate AnchorFigure(reference: real, noise: real, before: Measured, after: Measured) {
    reference + reference == Median(before.samples) + Median(after.samples) && IsNoise(noise, before, after)
  }

  ghost predicate AnchorFigures(f: Figures, h: History) {
    && Paired(h) && |f.reference| == |f.noise| == TRIALS
    && forall t :: 0 <= t < TRIALS ==> AnchorFigure(f.reference[t], f.noise[t], h.before[t], h.after[t])
  }

  predicate RunFigure(candidate: real, ratio: real, saving: real, reference: real, run: Measured) {
    candidate == Median(run.samples) && ratio * candidate == reference && saving + candidate == reference
  }

  ghost predicate RunFigures(f: Figures, h: History) {
    && Full(h) && |f.reference| == |f.candidate| == |f.ratio| == |f.saving| == TRIALS
    && forall t :: 0 <= t < TRIALS ==>
         RunFigure(f.candidate[t], f.ratio[t], f.saving[t], f.reference[t], h.runs[t])
  }

  /** All samples of the candidate, a trial after the other. */
  ghost predicate RunSamples(s: seq<real>, h: History) {
    Full(h) && |s| == 200 && forall j :: 0 <= j < 200 ==> s[j] == h.runs[j / 50].samples[j % 50]
  }

  /** All samples of the reference, a trial after the other and in each the anchor before first. */
  ghost predicate AnchorSamples(s: seq<real>, h: History) {
    && Paired(h) && |s| == 400
    && forall j :: 0 <= j < 400 ==>
         s[j] == (if j % 100 < 50 then h.before[j / 100] else h.after[j / 100]).samples[j % 50]
  }

  /** The deviation is at most this fraction of the median. */
  predicate Steady(s: seq<real>, fraction: real) {
    s != [] && Mad(s) <= fraction * Median(s)
  }

  predicate Drifts(clock: real, anchor: real, drift: real) {
    clock < anchor - drift * anchor || anchor + drift * anchor < clock
  }

  predicate ClocksHeld(run: Measured, anchor: Measured, drift: real) {
    && !Drifts(run.telemetry.smClock, anchor.telemetry.smClock, drift)
    && !Drifts(run.telemetry.memoryClock, anchor.telemetry.memoryClock, drift)
  }

  predicate SameConditions(run: Measured, before: Measured, after: Measured, drift: real) {
    && run.cacheState == before.cacheState && run.cacheState == after.cacheState
    && ClocksHeld(run, before, drift) && ClocksHeld(run, after, drift)
  }

  /** A counter's values in the runs, and halfway between its values in the anchors. */
  ghost predicate CounterSeries(name: string, h: History, run: seq<real>, anchor: seq<real>) {
    && Full(h) && |run| == |anchor| == TRIALS
    && forall t :: 0 <= t < TRIALS ==> CounterAt(name, h.runs[t], h.before[t], h.after[t], run[t], anchor[t])
  }

  predicate CounterAt(name: string, r: Measured, before: Measured, after: Measured, run: real, anchor: real) {
    && name in r.counters && name in before.counters && name in after.counters
    && run == r.counters[name] && anchor + anchor == before.counters[name] + after.counters[name]
  }

  predicate Toward(d: Direction, from: real, to: real) {
    match d
    case Increase => from < to
    case Decrease => to < from
  }

  /** At least three trials moved the predicted way, and the medians are far enough apart. From zero every increase
      is far enough and no decrease is. */
  ghost predicate Shifted(d: Direction, run: seq<real>, anchor: seq<real>, minimum: real)
    requires |run| == |anchor| == TRIALS
  {
    && |set t | 0 <= t < TRIALS && Toward(d, anchor[t], run[t])| >= 3
    && var to, from := Median(run), Median(anchor);
       match d
       case Increase => if from == 0.0 then to > 0.0 else (to - from) / from >= minimum
       case Decrease => from != 0.0 && (from - to) / from >= minimum
  }

  ghost predicate CounterShown(name: string, d: Direction, h: History, minimum: real) {
    exists run, anchor :: CounterSeries(name, h, run, anchor) && Shifted(d, run, anchor, minimum)
  }

  ghost predicate RunsSteady(h: History, fraction: real) {
    exists s :: RunSamples(s, h) && Steady(s, fraction)
  }

  ghost predicate AnchorsSteady(h: History, fraction: real) {
    exists s :: AnchorSamples(s, h) && Steady(s, fraction)
  }

  predicate ConditionsHeld(h: History, drift: real)
    requires Full(h)
  {
    forall t :: 0 <= t < TRIALS ==> SameConditions(h.runs[t], h.before[t], h.after[t], drift)
  }

  ghost predicate CountersShown(v: Variant, h: History, minimum: real) {
    forall c :: c in v.expected ==> CounterShown(c, v.expected[c], h, minimum)
  }

  /** In no trial the candidate takes more than this multiple of the reference. */
  predicate NeverSlow(f: Figures, multiple: real)
    requires |f.candidate| == |f.reference| == TRIALS
  {
    forall t :: 0 <= t < TRIALS ==> f.candidate[t] <= multiple * f.reference[t]
  }

  /** Every condition a candidate has to meet. */
  ghost predicate Qualifies(v: Variant, h: History, f: Figures, g: Gates)
    requires AnchorFigures(f, h) && RunFigures(f, h)
  {
    && g.minimumSpeedup <= Median(f.ratio)
    && Median(f.noise) < Median(f.saving)
    && NeverSlow(f, g.maximumTrialSlowdown)
    && RunsSteady(h, g.maximumRelativeMad) && AnchorsSteady(h, g.maximumRelativeMad)
    && ConditionsHeld(h, g.maximumClockDrift)
    && CountersShown(v, h, g.minimumCounterChange)
    && (g.allowSpills || v.compiled.(rest := "") == Resource(0, 0, 0, 0, ""))
  }

  // --- the rows tell it ----------------------------------------------------

  ghost predicate PairsOf(h: History, pairs: seq<Anchors<Measured>>) {
    && Paired(h) && |pairs| == TRIALS
    && forall t :: 0 <= t < TRIALS ==> pairs[t].0.body == h.before[t] && pairs[t].1.body == h.after[t]
  }

  ghost predicate RunsOf(h: History, records: seq<Record>) {
    |h.runs| == |records| == TRIALS && forall t :: 0 <= t < TRIALS ==> records[t].body == h.runs[t]
  }

  lemma AnchorsFigured(h: History, pairs: seq<Anchors<Measured>>, f: Figures)
    requires PairsOf(h, pairs) && f.reference == AnchorMeans(pairs) && f.noise == AnchorNoise(pairs)
    ensures AnchorFigures(f, h)
  {
    forall t | 0 <= t < TRIALS
      ensures AnchorFigure(f.reference[t], f.noise[t], h.before[t], h.after[t])
    {
      assert f.reference[t] == (Median(h.before[t].samples) + Median(h.after[t].samples)) / 2.0;
    }
  }

  lemma RunsFigured(h: History, records: seq<Record>, pairs: seq<Anchors<Measured>>)
    requires PairsOf(h, pairs) && RunsOf(h, records)
    ensures RunFigures(FiguresFrom(records, pairs), h)
  {
    var f := FiguresFrom(records, pairs);
    forall t | 0 <= t < TRIALS
      ensures RunFigure(f.candidate[t], f.ratio[t], f.saving[t], f.reference[t], h.runs[t])
    {
      Quotient(f.reference[t], f.candidate[t]);
    }
  }

  lemma Quotient(a: real, b: real)
    requires b > 0.0
    ensures a / b * b == a
  {
  }

  lemma {:induction false} SamplesAt(records: seq<Record>, j: nat)
    requires j < |records| * ITERATIONS
    ensures Samples(records)[j] == records[j / 50].body.samples[j % 50]
  {
    var n := |records| - 1;
    if j < n * ITERATIONS {
      SamplesAt(records[..n], j);
    }
  }

  lemma RunSamplesAre(s: seq<real>, h: History, records: seq<Record>)
    requires Paired(h) && RunsOf(h, records)
    ensures RunSamples(s, h) <==> s == Samples(records)
  {
    forall j | 0 <= j < 200
      ensures Samples(records)[j] == h.runs[j / 50].samples[j % 50]
    {
      SamplesAt(records, j);
    }
  }

  ghost predicate AnchorsFiled(h: History, anchors: seq<Record>) {
    && Paired(h) && |anchors| == 2 * TRIALS
    && forall t :: 0 <= t < TRIALS ==> AnchorsFiledAt(h.before[t], h.after[t], anchors, t)
  }

  ghost predicate AnchorsFiledAt(before: Measured, after: Measured, anchors: seq<Record>, t: nat) {
    && 2 * t + 1 < |anchors|
    && anchors[2 * t] == Timing(t, ControlBefore, before) && anchors[2 * t + 1] == Timing(t, ControlAfter, after)
  }

  lemma AnchorSamplesAre(s: seq<real>, h: History, anchors: seq<Record>)
    requires AnchorsFiled(h, anchors)
    ensures AnchorSamples(s, h) <==> s == Samples(anchors)
  {
    forall j: nat | j < 400
      ensures Samples(anchors)[j] == (if j % 100 < 50 then h.before[j / 100] else h.after[j / 100]).samples[j % 50]
    {
      SamplesAt(anchors, j);
      assert AnchorsFiledAt(h.before[j / 100], h.after[j / 100], anchors, j / 100);
      assert j / 50 == if j % 100 < 50 then 2 * (j / 100) else 2 * (j / 100) + 1;
    }
  }

  lemma SteadyIff(s: seq<real>, fraction: real)
    requires s != [] && Positive(s)
    ensures Steady(s, fraction) <==> RelativeMad(s) <= fraction
  {
    PositiveMembers(s);
    MedianPositive(s);
    AtMostFraction(Mad(s), Median(s), fraction);
  }

  lemma AtMostFraction(a: real, b: real, x: real)
    requires b > 0.0
    ensures a / b <= x <==> a <= x * b
  {
    assert a == a / b * b;
    if a / b <= x {
      assert a / b * b <= x * b;
    }
    if a / b > x {
      assert a / b * b > x * b;
    }
  }

  lemma NearIff(clock: real, anchor: real, drift: real)
    requires anchor > 0.0
    ensures Abs(clock / anchor - 1.0) <= drift <==> !Drifts(clock, anchor, drift)
  {
    AtMostFraction(clock, anchor, 1.0 + drift);
    AtMostFraction(-clock, anchor, drift - 1.0);
    assert -clock / anchor == -(clock / anchor);
    assert (1.0 + drift) * anchor == anchor + drift * anchor;
    assert (drift - 1.0) * anchor == drift * anchor - anchor;
  }

  lemma ConditionsIff(h: History, records: seq<Record>, pairs: seq<Anchors<Measured>>, drift: real)
    requires PairsOf(h, pairs) && RunsOf(h, records)
    ensures CacheMatched(records, pairs) && ClocksMatched(records, pairs, drift)
       <==> ConditionsHeld(h, drift)
  {
    forall run: Measured, anchor: Measured
      ensures Near(run.telemetry, anchor.telemetry, drift) <==> ClocksHeld(run, anchor, drift)
    {
      NearIff(run.telemetry.smClock, anchor.telemetry.smClock, drift);
      NearIff(run.telemetry.memoryClock, anchor.telemetry.memoryClock, drift);
    }
  }

  lemma {:induction false} MovedCounts(changes: seq<real>, d: Direction, from: seq<real>, to: seq<real>)
    requires |from| == |to| == |changes| && forall i :: 0 <= i < |changes| ==> changes[i] == to[i] - from[i]
    ensures Moved(changes, d) == |set t | 0 <= t < |changes| && Toward(d, from[t], to[t])|
  {
    var n := |changes| - 1;
    if n >= 0 {
      MovedCounts(changes[..n], d, from[..n], to[..n]);
      var before := set t | 0 <= t < n && Toward(d, from[..n][t], to[..n][t]);
      var all := set t | 0 <= t < n + 1 && Toward(d, from[t], to[t]);
      assert all == before + if Toward(d, from[n], to[n]) then {n} else {};
    }
  }

  lemma Opposite(a: real, b: real)
    requires b != 0.0
    ensures -a / b == -(a / b)
  {
    assert a == a / b * b;
  }

  lemma ShiftedIff(d: Direction, run: seq<real>, anchor: seq<real>, minimum: real)
    requires |run| == |anchor| == TRIALS
    ensures ShiftedEnough(d, run, anchor, minimum) <==> Shifted(d, run, anchor, minimum)
  {
    MovedCounts(Differences(run, anchor), d, anchor, run);
    var to, from := Median(run), Median(anchor);
    if from != 0.0 {
      Opposite(to - from, from);
      assert from - to == -(to - from);
    }
  }

  lemma CounterIff(name: string, d: Direction, h: History, records: seq<Record>, pairs: seq<Anchors<Measured>>,
                   minimum: real)
    requires PairsOf(h, pairs) && RunsOf(h, records)
    ensures CounterPassed(name, d, records, pairs, minimum) <==> CounterShown(name, d, h, minimum)
  {
    if CounterPresent(name, records, pairs) {
      var anchors := seq(|pairs|, i requires 0 <= i < |pairs| =>
         (pairs[i].0.body.counters[name] + pairs[i].1.body.counters[name]) / 2.0);
      var runs := seq(|records|, i requires 0 <= i < |records| => records[i].body.counters[name]);
      assert CounterSeries(name, h, runs, anchors);
      ShiftedIff(d, runs, anchors, minimum);
      forall x, y | CounterSeries(name, h, x, y)
        ensures x == runs && y == anchors
      {
        assert forall t :: 0 <= t < TRIALS ==> CounterAt(name, h.runs[t], h.before[t], h.after[t], x[t], y[t]);
      }
    } else {
      forall x, y
        ensures !CounterSeries(name, h, x, y)
      {
      }
    }
  }

  lemma CountersIff(v: Variant, h: History, records: seq<Record>, pairs: seq<Anchors<Measured>>, minimum: real)
    requires PairsOf(h, pairs) && RunsOf(h, records)
    ensures CountersPassed(v, records, pairs, minimum) <==> CountersShown(v, h, minimum)
  {
    forall c | c in v.expected
      ensures CounterPassed(c, v.expected[c], records, pairs, minimum) <==> CounterShown(c, v.expected[c], h, minimum)
    {
      CounterIff(c, v.expected[c], h, records, pairs, minimum);
    }
  }

  /** All samples of a kind are steady, whatever they are listed in. */
  lemma SamplesSteadyIff(h: History, records: seq<Record>, anchors: seq<Record>, fraction: real)
    requires Paired(h) && RunsOf(h, records) && AnchorsFiled(h, anchors)
    ensures RunsSteady(h, fraction) <==> RelativeMad(Samples(records)) <= fraction
    ensures AnchorsSteady(h, fraction) <==> RelativeMad(Samples(anchors)) <= fraction
  {
    var runs, refs := Samples(records), Samples(anchors);
    SteadyIff(runs, fraction);
    SteadyIff(refs, fraction);
    RunSamplesAre(runs, h, records);
    AnchorSamplesAre(refs, h, anchors);
    if RunsSteady(h, fraction) {
      var s :| RunSamples(s, h) && Steady(s, fraction);
      RunSamplesAre(s, h, records);
    }
    if AnchorsSteady(h, fraction) {
      var s :| AnchorSamples(s, h) && Steady(s, fraction);
      AnchorSamplesAre(s, h, anchors);
    }
  }

  /** The judgement of a candidate says exactly which conditions its readings meet. */
  lemma CandidateQualifies(v: Variant, h: History, records: seq<Record>, anchors: seq<Record>,
                           pairs: seq<Anchors<Measured>>, g: Gates)
    requires PairsOf(h, pairs) && RunsOf(h, records) && AnchorsFiled(h, anchors)
    ensures var f := FiguresFrom(records, pairs);
            && AnchorFigures(f, h) && RunFigures(f, h)
            && CandidateRow(v, records, anchors, pairs, g)
               == Row(v, Median(f.candidate), Median(f.ratio), Median(f.saving), Median(f.noise), Qualifies(v, h, f, g))
  {
    var f := FiguresFrom(records, pairs);
    AnchorsFigured(h, pairs, f);
    RunsFigured(h, records, pairs);
    CountersIff(v, h, records, pairs, g.minimumCounterChange);
    SamplesSteadyIff(h, records, anchors, g.maximumRelativeMad);
    ConditionsIff(h, records, pairs, g.maximumClockDrift);
    NoSlowIff(f, g.maximumTrialSlowdown);
    PassesIff(v, h, f, records, anchors, pairs, g);
  }

  lemma PassesIff(v: Variant, h: History, f: Figures, records: seq<Record>, anchors: seq<Record>,
                  pairs: seq<Anchors<Measured>>, g: Gates)
    requires |records| == |pairs| > 0 && anchors != [] && f == FiguresFrom(records, pairs)
    requires AnchorFigures(f, h) && RunFigures(f, h)
    requires NoSlowTrial(f.reference, f.candidate, g.maximumTrialSlowdown) <==> NeverSlow(f, g.maximumTrialSlowdown)
    requires RunsSteady(h, g.maximumRelativeMad) <==> RelativeMad(Samples(records)) <= g.maximumRelativeMad
    requires AnchorsSteady(h, g.maximumRelativeMad) <==> RelativeMad(Samples(anchors)) <= g.maximumRelativeMad
    requires CacheMatched(records, pairs) && ClocksMatched(records, pairs, g.maximumClockDrift)
        <==> ConditionsHeld(h, g.maximumClockDrift)
    requires CountersPassed(v, records, pairs, g.minimumCounterChange) <==> CountersShown(v, h, g.minimumCounterChange)
    ensures Passes(v, f, records, anchors, pairs, g) <==> Qualifies(v, h, f, g)
  {
  }

  lemma NoSlowIff(f: Figures, slowdown: real)
    requires |f.reference| == |f.candidate| == TRIALS
    ensures NoSlowTrial(f.reference, f.candidate, slowdown) <==> NeverSlow(f, slowdown)
  {
    forall t | 0 <= t < TRIALS
      ensures f.reference[t] * slowdown == slowdown * f.reference[t]
    {
    }
  }

  /** The pairs found by trial and arm are the anchors in filing order. */
  lemma FiledPairs(h: History, anchors: seq<Record>)
    requires AnchorsFiled(h, anchors) && ReferenceOk(anchors)
    ensures PairsOf(h, AnchorPairs(anchors))
  {
    forall t | 0 <= t < TRIALS
      ensures AnchorPairs(anchors)[t].0.body == h.before[t] && AnchorPairs(anchors)[t].1.body == h.after[t]
    {
      assert AnchorsFiledAt(h.before[t], h.after[t], anchors, t);
      assert AnchorsOk(anchors, t);
      PickIs(anchors, t, ControlBefore);
      PickIs(anchors, t, ControlAfter);
      assert Timing(t, ControlBefore, h.before[t]) in anchors && Timing(t, ControlAfter, h.after[t]) in anchors;
      Alone(Pick(anchors, t, ControlBefore), Timing(t, ControlBefore, h.before[t]));
      Alone(Pick(anchors, t, ControlAfter), Timing(t, ControlAfter, h.after[t]));
    }
  }

  lemma Alone<T>(s: seq<T>, x: T)
    requires |s| == 1 && x in s
    ensures s[0] == x
  {
  }

  // --- from the reports to the choice --------------------------------------

  /** The reading holds what the report says. */
  predicate Reads(m: Measured, r: Report) {
    m.samples == r.samples && m.cacheState == r.cacheState && m.telemetry == r.telemetry && m.counters == r.counters
  }

  ghost predicate AnchorReports(h: History, e: Entry, command: Command)
    requires Planned(e)
  {
    && Paired(h)
    && forall t: nat :: t < TRIALS ==>
         && Reads(h.before[t], command(e.profile.key, Reference(e).name, t, ControlBefore))
         && Reads(h.after[t], command(e.profile.key, Reference(e).name, t, ControlAfter))
  }

  ghost predicate RunReports(h: History, e: Entry, v: Variant, command: Command) {
    |h.runs| == TRIALS && forall t: nat :: t < TRIALS ==> Reads(h.runs[t], command(e.profile.key, v.name, t, Candidate))
  }

  /** The reference's row: it qualifies, and is compared with itself. */
  ghost predicate ReferenceTold(row: Row, e: Entry, v: Variant, command: Command)
    requires Planned(e)
  {
    exists h, f ::
      && AnchorReports(h, e, command) && AnchorFigures(f, h)
      && row == Row(v, Median(f.reference), 1.0, 0.0, Median(f.noise), true)
  }

  /** A candidate's row: its figures, and whether its reports and the anchors' meet every condition. */
  ghost predicate CandidateTold(row: Row, e: Entry, v: Variant, command: Command, g: Gates)
    requires Planned(e)
  {
    exists h, f ::
      && AnchorReports(h, e, command) && RunReports(h, e, v, command) && AnchorFigures(f, h) && RunFigures(f, h)
      && row == Row(v, Median(f.candidate), Median(f.ratio), Median(f.saving), Median(f.noise), Qualifies(v, h, f, g))
  }

  ghost predicate RowTold(row: Row, e: Entry, v: Variant, command: Command, g: Gates)
    requires Planned(e)
  {
    if v.reference then ReferenceTold(row, e, v, command) else CandidateTold(row, e, v, command, g)
  }

  /** The choice is the first of the smallest medians among the rows that qualify, and every row is told by the
      reports. */
  ghost predicate Decided(c: Choice, e: Entry, command: Command, g: Gates)
    requires Planned(e)
  {
    exists rows: seq<Row>, ref: nat ::
      && |rows| == |e.variants| && (forall k :: 0 <= k < |rows| ==> RowTold(rows[k], e, e.variants[k], command, g))
      && ref < |rows| && e.variants[ref].reference && Elected(c, e.profile, rows, ref)
  }

  ghost predicate AllDecided(winners: seq<Choice>, entries: seq<Entry>, command: Command, g: Gates)
    requires Plan(entries)
  {
    |winners| == |entries| && forall i :: 0 <= i < |entries| ==> Decided(winners[i], entries[i], command, g)
  }

  lemma RatiosToItself(a: seq<real>)
    requires a != [] && Positive(a)
    ensures Median(Ratios(a, a)) == 1.0 && Median(Differences(a, a)) == 0.0
  {
    var ones, zeros := Ratios(a, a), Differences(a, a);
    forall i | 0 <= i < |ones|
      ensures ones[i] == 1.0
    {
      OneTime(a[i]);
    }
    MedianOfSame(ones, 1.0);
    MedianOfSame(zeros, 0.0);
  }

  lemma OneTime(x: real)
    requires x != 0.0
    ensures x / x == 1.0
  {
  }

  lemma MedianOfSame(s: seq<real>, x: real)
    requires s != [] && forall y :: y in s ==> y == x
    ensures Median(s) == x
  {
    SortedIn(s, |s| / 2);
    if |s| % 2 == 0 {
      SortedIn(s, |s| / 2 - 1);
    }
  }

  lemma TakenReads(e: Entry, v: Variant, t: nat, arm: Arm, command: Command)
    requires Accepted(e, v, t, arm, Checked(command))
    ensures Reads(Taken(e, v, t, arm, Checked(command)).body, command(e.profile.key, v.name, t, arm))
  {
  }

  /** The bodies of the records of an arm, found at the places `at` names. */
  function Bodies(records: seq<Record>, at: nat -> nat): (s: seq<Measured>)
    requires forall t: nat :: t < TRIALS ==> at(t) < |records|
    ensures |s| == TRIALS
  {
    seq<Measured>(TRIALS, t requires 0 <= t < TRIALS => records[at(t)].body)
  }

  /** The anchors of a completed run, as the reports tell them. */
  lemma AnchorsOfRun(e: Entry, timings: Timings<Measured>, command: Command, runs: seq<Measured>)
    returns (h: History)
    requires Planned(e) && Holds(timings, e, TRIALS, Checked(command)) && ScheduleOk(timings, e)
    ensures h.runs == runs && AnchorReports(h, e, command)
    ensures var anchors := Filed(timings, e.profile.key, Reference(e).name);
            AnchorsFiled(h, anchors) && ReferenceOk(anchors) && PairsOf(h, AnchorPairs(anchors))
  {
    var ref, m := Reference(e), Checked(command);
    var anchors := Filed(timings, e.profile.key, ref.name);
    assert RecordsOk(ref, anchors);
    assert AllAccepted(e, ref, TRIALS, m) && anchors == AllTrials(e, ref, TRIALS, m);
    ReferenceOrder(e, ref, TRIALS, m);
    h := History(runs, Bodies(anchors, t => 2 * t), Bodies(anchors, t => 2 * t + 1));
    forall t: nat | t < TRIALS
      ensures AnchorsFiledAt(h.before[t], h.after[t], anchors, t)
      ensures Reads(h.before[t], command(e.profile.key, ref.name, t, ControlBefore))
      ensures Reads(h.after[t], command(e.profile.key, ref.name, t, ControlAfter))
    {
      assert TrialAccepted(e, ref, t, m);
      TakenReads(e, ref, t, ControlBefore, command);
      TakenReads(e, ref, t, ControlAfter, command);
    }
    FiledPairs(h, anchors);
  }

  lemma RunsOfRun(e: Entry, v: Variant, timings: Timings<Measured>, command: Command) returns (runs: seq<Measured>)
    requires v in e.variants && !v.reference && Holds(timings, e, TRIALS, Checked(command))
    ensures |runs| == TRIALS
    ensures forall t: nat :: t < TRIALS ==> Reads(runs[t], command(e.profile.key, v.name, t, Candidate))
    ensures var records := Filed(timings, e.profile.key, v.name);
            |records| == TRIALS && forall t :: 0 <= t < TRIALS ==> records[t].body == runs[t]
  {
    var m := Checked(command);
    var records := Filed(timings, e.profile.key, v.name);
    assert AllAccepted(e, v, TRIALS, m) && records == AllTrials(e, v, TRIALS, m);
    CandidateHistory(e, v, TRIALS, m);
    runs := Bodies(records, t => t);
    forall t: nat | t < TRIALS
      ensures records[t].body == runs[t] && Reads(runs[t], command(e.profile.key, v.name, t, Candidate))
    {
      assert TrialAccepted(e, v, t, m);
      TakenReads(e, v, t, Candidate, command);
    }
  }

  lemma ReferenceRowTold(e: Entry, v: Variant, timings: Timings<Measured>, command: Command, g: Gates)
    requires Planned(e) && Holds(timings, e, TRIALS, Checked(command)) && ScheduleOk(timings, e)
    requires v == Reference(e) && ReferenceOk(Filed(timings, e.profile.key, v.name))
    ensures ReferenceTold(ReferenceRow(v, AnchorPairs(Filed(timings, e.profile.key, v.name))), e, v, command)
  {
    var h := AnchorsOfRun(e, timings, command, []);
    var pairs := AnchorPairs(Filed(timings, e.profile.key, v.name));
    var f := Figures(AnchorMeans(pairs), AnchorNoise(pairs), [], [], []);
    AnchorsFigured(h, pairs, f);
    RatiosToItself(f.reference);
  }

  lemma CandidateRowTold(e: Entry, v: Variant, timings: Timings<Measured>, command: Command, g: Gates)
    requires Planned(e) && Holds(timings, e, TRIALS, Checked(command)) && ScheduleOk(timings, e)
    requires v in e.variants && !v.reference && |Filed(timings, e.profile.key, v.name)| == TRIALS
    requires ReferenceOk(Filed(timings, e.profile.key, Reference(e).name))
    ensures var anchors := Filed(timings, e.profile.key, Reference(e).name);
            CandidateTold(CandidateRow(v, Filed(timings, e.profile.key, v.name), anchors, AnchorPairs(anchors), g),
                          e, v, command, g)
  {
    var anchors := Filed(timings, e.profile.key, Reference(e).name);
    var records := Filed(timings, e.profile.key, v.name);
    var runs := RunsOfRun(e, v, timings, command);
    var h := AnchorsOfRun(e, timings, command, runs);
    CandidateQualifies(v, h, records, anchors, AnchorPairs(anchors), g);
    var f := FiguresFrom(records, AnchorPairs(anchors));
    assert RunReports(h, e, v, command);
    assert AnchorFigures(f, h) && RunFigures(f, h);
  }

  /** Every row judged from a completed run is told by the reports. */
  lemma RowsTold(e: Entry, v: Variant, timings: Timings<Measured>, command: Command, g: Gates)
    requires Planned(e) && Holds(timings, e, TRIALS, Checked(command)) && ScheduleOk(timings, e)
    requires Fair(Judging(g), g) && v in e.variants
    ensures RowTold(RowOf(e, v, timings, Judging(g), g), e, v, command, g)
  {
    assert RecordsOk(v, Filed(timings, e.profile.key, v.name));
    assert RecordsOk(Reference(e), Filed(timings, e.profile.key, Reference(e).name));
    if v.reference {
      ReferenceRowTold(e, v, timings, command, g);
    } else {
      CandidateRowTold(e, v, timings, command, g);
    }
  }

  lemma ChoiceDecided(c: Choice, e: Entry, timings: Timings<Measured>, command: Command, g: Gates)
    requires Planned(e) && Holds(timings, e, TRIALS, Checked(command)) && ScheduleOk(timings, e)
    requires Fair(Judging(g), g) && Chosen(c, e, timings, Judging(g), g)
    ensures Decided(c, e, command, g)
  {
    var rows := Rows(e, timings, Judging(g), g);
    var ref: nat :| ref < |e.variants| && e.variants[ref].reference && Elected(c, e.profile, rows, ref);
    forall k | 0 <= k < |rows|
      ensures RowTold(rows[k], e, e.variants[k], command, g)
    {
      RowsTold(e, e.variants[k], timings, command, g);
    }
  }

  /** A whole run on an admitted plan: it completes exactly when every variant verifies, the gates are sound,
      every scheduled report is accepted and every group has a profile that occurs. Its summary is then sound, and
      every choice is decided by the reports. */
  method RunTuner(entries: seq<Entry>, verify: KernelVerify.Verifier, command: Command, g: Gates)
    returns (r: Result<Summary>)
    requires Plan(entries)
    ensures r.Success? <==>
              && (forall e :: e in entries ==> KernelVerify.EntryVerified(e, verify))
              && GatesOk(g) && PlanWeighed(entries)
              && forall e, v :: e in entries && v in e.variants ==> AllAccepted(e, v, TRIALS, Checked(command))
    ensures r.Success? ==> SoundSummary(r.value, entries) && AllDecided(r.value.winners, entries, command, g)
  {
    var verified := KernelVerify.VerifyAll(entries, verify);
    if !verified {
      return Failure("verification failed");
    }
    JudgingIsFair(g);
    var timings := BenchmarkAll(entries, Checked(command));
    if timings.Failure? {
      return Failure(timings.error);
    }
    forall e | e in entries
      ensures ScheduleOk(timings.value, e)
    {
      CompletedSchedulePasses(timings.value, e, Checked(command));
    }
    r := Summarize(entries, timings.value, Judging(g), g);
    if r.Success? {
      forall i | 0 <= i < |entries|
        ensures Decided(r.value.winners[i], entries[i], command, g)
      {
        ChoiceDecided(r.value.winners[i], entries[i], timings.value, command, g);
      }
    }
  }
}
