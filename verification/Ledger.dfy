/**
  `ledger_append.py`: the append-only performance ledger, one entry a line, and what holds of it when any
  number of writers append under the file lock.
 */
module Ledger {
  import opened Common
  import opened Statistics

  datatype Given = Given(n: Option<nat>, median: Option<real>, mad: Option<real>, p95: Option<real>)

  datatype Entry = Entry(id: string, job: string, harness: string, hardware: map<string, string>,
                         rung: map<string, string>, metric: string, better: string, samples: seq<real>,
                         stats: Option<Given>, controlOf: Option<string>, repeatControlOf: Option<string>,
                         date: Option<string>)

  /** A submitted object, either lacking a required key or with all of them. */
  datatype Submission = Incomplete | Complete(entry: Entry)

  type Known = map<string, Entry>

  const HARDWARE_KEYS: set<string> := {"box", "rocm", "driver", "firmware"}
  const RUNG_KEYS: set<string> := {"digest", "role", "rows", "prior", "topology"}
  const HARNESSES := {"proto", "attrib", "bench", "serve-ab"}

  // --- the check ----------------------------------------------------------

  function Computed(s: Stats): Given { Given(Some(s.n), Some(s.median), Some(s.mad), Some(s.p95)) }

  predicate StatsAgree(e: Entry) {
    if e.samples != [] then
      var s := StatsOf(e.samples);
      e.stats.Some? ==>
        e.stats.value.n == Some(s.n) &&
        e.stats.value.median.Some? && Abs(e.stats.value.median.value - s.median) <= 0.000000001
    else e.stats.Some? && e.stats.value.median.Some? && e.stats.value.n.Some?
  }

  predicate WellFormed(e: Entry) {
    && e.harness in HARNESSES
    && (e.better == "lower" || e.better == "higher")
    && HARDWARE_KEYS <= e.hardware.Keys
    && RUNG_KEYS <= e.rung.Keys
    && StatsAgree(e)
  }

  /** `c` measured the same thing on the same machine. */
  predicate Comparable(c: Entry, e: Entry) {
    && c.job == e.job && c.hardware == e.hardware && c.metric == e.metric
    && "digest" in c.rung && "digest" in e.rung && c.rung["digest"] == e.rung["digest"]
  }

  predicate RefOk(known: Known, e: Entry, r: Option<string>) {
    r.Some? ==> r.value in known && Comparable(known[r.value], e)
  }

  /** What the ledger must guarantee of an entry written after the `known` ones. */
  predicate Admissible(e: Entry, known: Known) {
    && e.id !in known
    && WellFormed(e)
    && RefOk(known, e, e.controlOf) && RefOk(known, e, e.repeatControlOf)
    && (e.controlOf.Some? <==> e.repeatControlOf.Some?)
  }

  /** The entry as written: statistics filled in from the samples, today's date if it has none. */
  function Filled(e: Entry, today: string): Entry {
    var f := if e.samples == [] then e else e.(stats := Some(Computed(StatsOf(e.samples))));
    if f.date.Some? then f else f.(date := Some(today))
  }

  /** What is written of an entry: its own date or else today's, statistics of its samples if it has any, and
      everything else as it was. */
  lemma FilledIs(e: Entry, today: string)
    ensures var f := Filled(e, today);
            && f.date == Some(if e.date.Some? then e.date.value else today)
            && f.(date := e.date, stats := e.stats) == e
            && (e.samples == [] ==> f.stats == e.stats)
            && (e.samples != [] ==>
                  f.stats.Some? && f.stats.value.n == Some(|e.samples|)
                  && f.stats.value.median.Some? && IsMedian(e.samples, f.stats.value.median.value)
                  && f.stats.value.mad.Some? && IsMad(e.samples, f.stats.value.mad.value)
                  && f.stats.value.p95 == Some(StatsOf(e.samples).p95))
  {
    if e.samples != [] {
      MedianIff(e.samples, Median(e.samples));
      MadIff(e.samples, Mad(e.samples));
    }
  }

  method CheckRef(known: Known, e: Entry, r: Option<string>) returns (ok: bool)
    requires "digest" in e.rung
    ensures ok <==> RefOk(known, e, r)
  {
    if r.None? { return true; }
    if r.value !in known { return false; }
    var c := known[r.value];
    if c.job != e.job || c.hardware != e.hardware || c.metric != e.metric { return false; }
    ok := "digest" in c.rung && c.rung["digest"] == e.rung["digest"];
  }

  /** Each test in the source's order; a failed one raises. */
  method CheckEntry(s: Submission, known: Known, today: string) returns (r: Option<Entry>)
    ensures r == Check(s, known, today)
  {
    if s.Incomplete? { return None; }
    var e := s.entry;
    if e.id in known || e.harness !in HARNESSES { return None; }
    if e.better != "lower" && e.better != "higher" { return None; }
    if !(HARDWARE_KEYS <= e.hardware.Keys) { return None; }
    if !(RUNG_KEYS <= e.rung.Keys) { return None; }
    var out := e;
    if e.samples != [] {
      var st := StatsOf(e.samples);
      if e.stats.Some? {
        var g := e.stats.value;
        if g.n != Some(st.n) || g.median.None? || Abs(g.median.value - st.median) > 0.000000001 { return None; }
      }
      out := out.(stats := Some(Computed(st)));
    } else if e.stats.None? || e.stats.value.median.None? || e.stats.value.n.None? {
      return None;
    }
    var refs := [e.controlOf, e.repeatControlOf];
    for i := 0 to 2
      invariant forall k :: 0 <= k < i ==> RefOk(known, e, refs[k])
    {
      var ok := CheckRef(known, e, refs[i]);
      if !ok {
        assert refs[0] == e.controlOf && refs[1] == e.repeatControlOf;
        return None;
      }
    }
    assert RefOk(known, e, refs[0]) && RefOk(known, e, refs[1]);
    if e.controlOf.Some? != e.repeatControlOf.Some? { return None; }
    if out.date.None? { out := out.(date := Some(today)); }
    r := Some(out);
  }

  function Check(s: Submission, known: Known, today: string): Option<Entry> {
    if s.Complete? && Admissible(s.entry, known) then Some(Filled(s.entry, today)) else None
  }

  lemma CheckedIsAdmissible(s: Submission, known: Known, today: string)
    requires Check(s, known, today).Some?
    ensures Admissible(Check(s, known, today).value, known)
  {
  }

  // --- the file -----------------------------------------------------------

  function KnownOf(file: seq<Entry>): Known {
    if file == [] then map[] else KnownOf(file[..|file| - 1])[file[|file| - 1].id := file[|file| - 1]]
  }

  /** Every entry was admissible after the ones before it. */
  ghost predicate Good(file: seq<Entry>) {
    file == [] || (Good(file[..|file| - 1]) && Admissible(file[|file| - 1], KnownOf(file[..|file| - 1])))
  }

  lemma {:induction false} KnownIndex(file: seq<Entry>, id: string)
    ensures id in KnownOf(file) <==> exists i :: 0 <= i < |file| && file[i].id == id
    ensures id in KnownOf(file) ==> exists i :: 0 <= i < |file| && file[i].id == id && file[i] == KnownOf(file)[id]
  {
    if file != [] {
      KnownIndex(file[..|file| - 1], id);
    }
  }

  lemma {:induction false} GoodPrefix(file: seq<Entry>, n: nat)
    requires Good(file) && n <= |file|
    ensures Good(file[..n])
    decreases |file|
  {
    if n < |file| {
      GoodPrefix(file[..|file| - 1], n);
      assert file[..|file| - 1][..n] == file[..n];
    } else {
      assert file[..n] == file;
    }
  }

  /** Entry `j` is what entry `i` names as `r`: strictly earlier, and comparable. */
  ghost predicate Refers(file: seq<Entry>, i: nat, r: Option<string>, j: nat) {
    j < i < |file| && r == Some(file[j].id) && Comparable(file[j], file[i])
  }

  lemma IdsUnique(file: seq<Entry>, lo: nat, hi: nat)
    requires Good(file) && lo < hi < |file|
    ensures file[lo].id != file[hi].id
  {
    GoodAt(file, hi);
    KnownIndex(file[..hi], file[hi].id);
    assert file[..hi][lo] == file[lo];
  }

  lemma ReferenceFound(file: seq<Entry>, i: nat, r: Option<string>)
    requires i < |file| && r.Some? && RefOk(KnownOf(file[..i]), file[i], r)
    ensures exists j: nat :: Refers(file, i, r, j)
  {
    KnownIndex(file[..i], r.value);
    var j :| 0 <= j < i && file[..i][j].id == r.value && file[..i][j] == KnownOf(file[..i])[r.value];
    assert Refers(file, i, r, j);
  }

  /** In a good ledger ids are unique, and a treatment names two earlier comparable entries; others name none. */
  lemma GoodMeans(file: seq<Entry>, i: nat)
    requires Good(file) && i < |file|
    ensures WellFormed(file[i])
    ensures forall k :: 0 <= k < |file| && k != i ==> file[k].id != file[i].id
    ensures file[i].controlOf.Some? <==> file[i].repeatControlOf.Some?
    ensures file[i].controlOf.Some? ==> exists j: nat :: Refers(file, i, file[i].controlOf, j)
    ensures file[i].repeatControlOf.Some? ==> exists j: nat :: Refers(file, i, file[i].repeatControlOf, j)
  {
    GoodAt(file, i);
    forall k | 0 <= k < |file| && k != i
      ensures file[k].id != file[i].id
    {
      if k < i {
        IdsUnique(file, k, i);
      } else {
        IdsUnique(file, i, k);
      }
    }
    if file[i].controlOf.Some? {
      ReferenceFound(file, i, file[i].controlOf);
      ReferenceFound(file, i, file[i].repeatControlOf);
    }
  }

  lemma {:induction false} GoodAt(file: seq<Entry>, i: nat)
    requires Good(file) && i < |file|
    ensures Admissible(file[i], KnownOf(file[..i]))
    decreases |file|
  {
    var init := file[..|file| - 1];
    if i < |init| {
      GoodAt(init, i);
      assert init[..i] == file[..i];
    }
  }

  /** Following references never returns: along any chain the position in the file strictly falls. */
  lemma {:induction false} ReferencesAcyclic(file: seq<Entry>, path: seq<nat>)
    requires Good(file) && |path| > 1
    requires forall k :: 0 <= k < |path| ==> path[k] < |file|
    requires forall k :: 0 <= k < |path| - 1 ==>
               var e := file[path[k]];
               e.controlOf == Some(file[path[k + 1]].id) || e.repeatControlOf == Some(file[path[k + 1]].id)
    ensures path[|path| - 1] < path[0]
  {
    var n := |path| - 1;
    GoodMeans(file, path[n - 1]);
    GoodMeans(file, path[n]);
    assert path[n] < path[n - 1];
    if n > 1 {
      ReferencesAcyclic(file, path[..n]);
    }
  }

  // --- one append ---------------------------------------------------------

  /** The check of one submission against the known entries, on a date. */
  type Checker = (Submission, Known, string) -> Option<Entry>

  /** All lines of a batch, each checked against the file and the lines before it, on the date the clock shows
      then; `None` if one raises. */
  function CheckBatch(check: Checker, known: Known, batch: seq<Submission>, dates: seq<string>): Option<seq<Entry>>
    requires |dates| == |batch|
  {
    if batch == [] then Some([])
    else
      var n := |batch| - 1;
      AddLine(check, known, CheckBatch(check, known, batch[..n], dates[..n]), batch[n], dates[n])
  }

  function AddLine(check: Checker, known: Known, lines: Option<seq<Entry>>, s: Submission, today: string):
      Option<seq<Entry>> {
    if lines.None? then None
    else
      var e := check(s, Extended(known, lines.value), today);
      if e.None? then None else Some(lines.value + [e.value])
  }

  function Extended(known: Known, lines: seq<Entry>): Known {
    if lines == [] then known else Extended(known, lines[..|lines| - 1])[lines[|lines| - 1].id := lines[|lines| - 1]]
  }

  lemma {:induction false} ExtendedIsKnown(file: seq<Entry>, lines: seq<Entry>)
    ensures Extended(KnownOf(file), lines) == KnownOf(file + lines)
  {
    if lines == [] {
      assert file + lines == file;
    } else {
      ExtendedIsKnown(file, lines[..|lines| - 1]);
      assert (file + lines)[..|file + lines| - 1] == file + lines[..|lines| - 1];
    }
  }

  lemma BatchAdd(check: Checker, known: Known, batch: seq<Submission>, dates: seq<string>, s: Submission, today: string)
    requires |dates| == |batch|
    ensures CheckBatch(check, known, batch + [s], dates + [today]) ==
            AddLine(check, known, CheckBatch(check, known, batch, dates), s, today)
  {
    var n := |batch|;
    assert (batch + [s])[..n] == batch && (dates + [today])[..n] == dates;
  }

  lemma BatchNext(check: Checker, known: Known, batch: seq<Submission>, dates: seq<string>, i: nat)
    requires i < |batch| == |dates|
    ensures CheckBatch(check, known, batch[..i + 1], dates[..i + 1]) ==
            AddLine(check, known, CheckBatch(check, known, batch[..i], dates[..i]), batch[i], dates[i])
  {
    assert batch[..i + 1] == batch[..i] + [batch[i]] && dates[..i + 1] == dates[..i] + [dates[i]];
    BatchAdd(check, known, batch[..i], dates[..i], batch[i], dates[i]);
  }

  lemma {:induction false} PrefixRaises(check: Checker, known: Known, batch: seq<Submission>, dates: seq<string>,
                                        k: nat)
    requires k <= |batch| == |dates| && CheckBatch(check, known, batch[..k], dates[..k]).None?
    ensures CheckBatch(check, known, batch, dates).None?
    decreases |batch|
  {
    var n := |batch| - 1;
    if k < |batch| {
      assert batch[..n][..k] == batch[..k] && dates[..n][..k] == dates[..k];
      PrefixRaises(check, known, batch[..n], dates[..n], k);
    } else {
      assert batch[..k] == batch && dates[..k] == dates;
    }
  }

  lemma {:induction false} BatchKeepsGood(file: seq<Entry>, batch: seq<Submission>, dates: seq<string>)
    requires |dates| == |batch| && Good(file) && CheckBatch(Check, KnownOf(file), batch, dates).Some?
    ensures Good(file + CheckBatch(Check, KnownOf(file), batch, dates).value)
  {
    if batch == [] {
      assert file + [] == file;
    } else {
      var n := |batch| - 1;
      BatchKeepsGood(file, batch[..n], dates[..n]);
      LineKeepsGood(file, CheckBatch(Check, KnownOf(file), batch[..n], dates[..n]).value, batch[n], dates[n]);
    }
  }

  lemma LineKeepsGood(file: seq<Entry>, lines: seq<Entry>, s: Submission, today: string)
    requires Good(file + lines) && Check(s, Extended(KnownOf(file), lines), today).Some?
    ensures Good(file + (lines + [Check(s, Extended(KnownOf(file), lines), today).value]))
  {
    ExtendedIsKnown(file, lines);
    CheckedIsAdmissible(s, KnownOf(file + lines), today);
    GoodNext(file + lines, Check(s, KnownOf(file + lines), today).value);
    assert file + (lines + [Check(s, KnownOf(file + lines), today).value]) ==
           (file + lines) + [Check(s, KnownOf(file + lines), today).value];
  }

  lemma GoodNext(file: seq<Entry>, e: Entry)
    requires Good(file) && Admissible(e, KnownOf(file))
    ensures Good(file + [e])
  {
    assert (file + [e])[..|file|] == file;
  }

  /** The same entries, dates aside. */
  ghost predicate SameButDate(e: Entry, f: Entry) { f == e.(date := f.date) }

  ghost predicate SameButDates(known: Known, known2: Known) {
    known.Keys == known2.Keys && forall id :: id in known ==> SameButDate(known[id], known2[id])
  }

  lemma CheckIgnoresDates(s: Submission, known: Known, today: string, known2: Known, today2: string)
    requires SameButDates(known, known2)
    ensures Check(s, known, today).Some? <==> Check(s, known2, today2).Some?
    ensures Check(s, known, today).Some? ==> SameButDate(Check(s, known, today).value, Check(s, known2, today2).value)
  {
    if s.Complete? {
      var e := s.entry;
      RefIgnoresDates(known, known2, e, e.controlOf);
      RefIgnoresDates(known, known2, e, e.repeatControlOf);
    }
  }

  lemma RefIgnoresDates(known: Known, known2: Known, e: Entry, r: Option<string>)
    requires SameButDates(known, known2)
    ensures RefOk(known, e, r) <==> RefOk(known2, e, r)
  {
    if r.Some? && r.value in known {
      assert SameButDate(known[r.value], known2[r.value]);
    }
  }

  /** The verdict of a check, and what it fills in besides the date, do not depend on dates. */
  ghost predicate IgnoresDates(check: Checker) {
    forall s, known, today, known2, today2 {:trigger check(s, known, today), check(s, known2, today2)} ::
      SameButDates(known, known2) ==> SameOutcome(check(s, known, today), check(s, known2, today2))
  }

  ghost predicate SameOutcome(a: Option<Entry>, b: Option<Entry>) {
    (a.Some? <==> b.Some?) && (a.Some? ==> SameButDate(a.value, b.value))
  }

  lemma CheckDoes()
    ensures IgnoresDates(Check)
  {
    forall s, known, today, known2, today2 | SameButDates(known, known2)
      ensures SameOutcome(Check(s, known, today), Check(s, known2, today2))
    {
      CheckIgnoresDates(s, known, today, known2, today2);
    }
  }

  ghost predicate SameKnown(known: Known, a: Option<seq<Entry>>, b: Option<seq<Entry>>) {
    (a.Some? <==> b.Some?) && (a.Some? ==> SameButDates(Extended(known, a.value), Extended(known, b.value)))
  }

  /** Whether a batch is accepted does not depend on the dates of its checks. */
  lemma {:induction false} DatesDoNotDecide(check: Checker, known: Known, batch: seq<Submission>,
                                            dates: seq<string>, dates2: seq<string>)
    requires |dates| == |batch| == |dates2| && IgnoresDates(check)
    ensures SameKnown(known, CheckBatch(check, known, batch, dates), CheckBatch(check, known, batch, dates2))
  {
    if batch != [] {
      var n := |batch| - 1;
      DatesDoNotDecide(check, known, batch[..n], dates[..n], dates2[..n]);
      var a, b := CheckBatch(check, known, batch[..n], dates[..n]), CheckBatch(check, known, batch[..n], dates2[..n]);
      if a.Some? {
        SameNext(check, known, batch[n], a.value, dates[n], b.value, dates2[n]);
      }
    }
  }

  lemma SameNext(check: Checker, known: Known, s: Submission, lines: seq<Entry>, today: string,
                 lines2: seq<Entry>, today2: string)
    requires IgnoresDates(check) && SameButDates(Extended(known, lines), Extended(known, lines2))
    ensures var e, f := check(s, Extended(known, lines), today), check(s, Extended(known, lines2), today2);
            (e.Some? <==> f.Some?) &&
            (e.Some? ==> SameButDates(Extended(known, lines + [e.value]), Extended(known, lines2 + [f.value])))
  {
    var e, f := check(s, Extended(known, lines), today), check(s, Extended(known, lines2), today2);
    assert SameOutcome(e, f);
    if e.Some? {
      ExtendOne(known, lines, e.value);
      ExtendOne(known, lines2, f.value);
    }
  }

  lemma ExtendOne(known: Known, lines: seq<Entry>, e: Entry)
    ensures Extended(known, lines + [e]) == Extended(known, lines)[e.id := e]
  {
    assert (lines + [e])[..|lines|] == lines;
  }

  class LedgerFile {
    var file: seq<Entry>

    constructor ()
      ensures file == []
    {
      file := [];
    }

    method Read() returns (known: Known)
      ensures known == KnownOf(file)
    {
      known := map[];
      for i := 0 to |file|
        invariant known == KnownOf(file[..i])
      {
        assert file[..i + 1][..i] == file[..i];
        known := known[file[i].id := file[i]];
      }
      assert file[..|file|] == file;
    }

    /** Either the whole batch is written behind what was there, or nothing is; `dates` are what the clock shows
        at each check. */
    method Append(batch: seq<Submission>, dates: seq<string>) returns (n: Option<nat>)
      requires |dates| == |batch| && Good(file)
      modifies this
      ensures Good(file)
      ensures var lines := CheckBatch(Check, KnownOf(old(file)), batch, dates);
              if lines.Some? then n == Some(|lines.value|) && file == old(file) + lines.value
              else n.None? && file == old(file)
    {
      ghost var start := KnownOf(file);
      var known := Read();
      var lines: seq<Entry> := [];
      for i := 0 to |batch|
        invariant file == old(file)
        invariant CheckBatch(Check, start, batch[..i], dates[..i]) == Some(lines)
        invariant known == Extended(start, lines)
      {
        BatchNext(Check, start, batch, dates, i);
        var e := CheckEntry(batch[i], known, dates[i]);
        if e.None? {
          PrefixRaises(Check, start, batch, dates, i + 1);
          return None;
        }
        ExtendOne(start, lines, e.value);
        known := known[e.value.id := e.value];
        lines := lines + [e.value];
      }
      assert batch[..|batch|] == batch && dates[..|batch|] == dates;
      BatchKeepsGood(file, batch, dates);
      file := file + lines;
      n := Some(|lines|);
    }
  }

  // --- any number of writers ----------------------------------------------

  /** Where one writer is: waiting for the lock, holding it unread, or checking with `done` entries behind it. */
  datatype Writer =
    | Idle
    | Waiting(batch: seq<Submission>)
    | Holding(batch: seq<Submission>)
    | Checking(batch: seq<Submission>, done: nat, known: Known, lines: seq<Entry>)

  datatype System = System(file: seq<Entry>, lock: Option<nat>, writers: seq<Writer>)

  ghost predicate Start(s: System) {
    s.file == [] && s.lock.None? && forall i :: 0 <= i < |s.writers| ==> s.writers[i].Idle?
  }

  /** One step of writer `i`, on the date its clock shows. */
  ghost predicate StepOf(s: System, i: nat, s2: System, today: string) {
    && i < |s.writers|
    && match s.writers[i]
       case Idle => exists batch :: s2 == s.(writers := s.writers[i := Waiting(batch)])
       case Waiting(batch) => s.lock.None? && s2 == s.(lock := Some(i), writers := s.writers[i := Holding(batch)])
       case Holding(batch) => s2 == s.(writers := s.writers[i := Checking(batch, 0, KnownOf(s.file), [])])
       case Checking(batch, done, known, lines) =>
         if done < |batch| then
           var e := Check(batch[done], known, today);
           if e.None? then s2 == s.(lock := None, writers := s.writers[i := Idle])
           else s2 == s.(writers := s.writers[i := Checking(batch, done + 1, known[e.value.id := e.value],
                                                            lines + [e.value])])
         else s2 == System(s.file + lines, None, s.writers[i := Idle])
  }

  ghost predicate InsideLock(w: Writer) { w.Holding? || w.Checking? }

  /** `lines` is what checking the batch against the file gives, whatever the dates of the checks were. */
  ghost predicate Checked(check: Checker, file: seq<Entry>, batch: seq<Submission>, lines: seq<Entry>) {
    exists dates :: |dates| == |batch| && CheckBatch(check, KnownOf(file), batch, dates) == Some(lines)
  }

  /** A writer in the middle of its batch is exactly where a batch checked against the current file would be. */
  ghost predicate OnTrack(check: Checker, file: seq<Entry>, w: Writer) {
    w.Checking? ==>
      && w.done <= |w.batch|
      && Checked(check, file, w.batch[..w.done], w.lines)
      && w.known == Extended(KnownOf(file), w.lines)
  }

  ghost predicate Inv(s: System) {
    && Good(s.file)
    && (forall i :: 0 <= i < |s.writers| ==> (InsideLock(s.writers[i]) <==> s.lock == Some(i)))
    && forall i :: 0 <= i < |s.writers| ==> OnTrack(Check, s.file, s.writers[i])
  }

  lemma CheckedOn(check: Checker, file: seq<Entry>, batch: seq<Submission>, dates: seq<string>, lines: seq<Entry>)
    requires |dates| == |batch| && CheckBatch(check, KnownOf(file), batch, dates) == Some(lines)
    ensures Checked(check, file, batch, lines)
  {
  }

  lemma CheckedNext(check: Checker, file: seq<Entry>, batch: seq<Submission>, s: Submission, lines: seq<Entry>,
                    today: string)
    requires Checked(check, file, batch, lines)
    requires check(s, Extended(KnownOf(file), lines), today).Some?
    ensures Checked(check, file, batch + [s], lines + [check(s, Extended(KnownOf(file), lines), today).value])
  {
    var dates :| |dates| == |batch| && CheckBatch(check, KnownOf(file), batch, dates) == Some(lines);
    BatchAdd(check, KnownOf(file), batch, dates, s, today);
    CheckedOn(check, file, batch + [s], dates + [today],
              lines + [check(s, Extended(KnownOf(file), lines), today).value]);
  }

  /** Checking one more entry, on any date, leaves the writer where a batch check would be; a batch given up
      would be refused whatever the dates. */
  lemma CheckingOnTrack(check: Checker, file: seq<Entry>, w: Writer, today: string)
    requires IgnoresDates(check) && OnTrack(check, file, w) && w.Checking? && w.done < |w.batch|
    ensures var e := check(w.batch[w.done], w.known, today);
            if e.None? then Refused(check, file, w.batch)
            else OnTrack(check, file, Checking(w.batch, w.done + 1, w.known[e.value.id := e.value],
                                               w.lines + [e.value]))
  {
    if check(w.batch[w.done], w.known, today).Some? {
      assert w.batch[..w.done + 1] == w.batch[..w.done] + [w.batch[w.done]];
      CheckedNext(check, file, w.batch[..w.done], w.batch[w.done], w.lines, today);
      ExtendOne(KnownOf(file), w.lines, check(w.batch[w.done], w.known, today).value);
    } else {
      GivenUpIsRefused(check, file, w.batch, w.done, w.lines, today);
    }
  }

  ghost predicate Refused(check: Checker, file: seq<Entry>, batch: seq<Submission>) {
    forall dates :: |dates| == |batch| ==> CheckBatch(check, KnownOf(file), batch, dates).None?
  }

  lemma GivenUpIsRefused(check: Checker, file: seq<Entry>, batch: seq<Submission>, n: nat, lines: seq<Entry>,
                         today: string)
    requires n < |batch| && Checked(check, file, batch[..n], lines)
    requires check(batch[n], Extended(KnownOf(file), lines), today).None?
    requires IgnoresDates(check)
    ensures Refused(check, file, batch)
  {
    var start := KnownOf(file);
    var before :| |before| == n && CheckBatch(check, start, batch[..n], before) == Some(lines);
    forall dates | |dates| == |batch|
      ensures CheckBatch(check, start, batch, dates).None?
    {
      assert batch[..n + 1] == batch[..n] + [batch[n]];
      BatchAdd(check, start, batch[..n], before, batch[n], today);
      DatesDoNotDecide(check, start, batch[..n + 1], before + [today], dates[..n + 1]);
      PrefixRaises(check, start, batch, dates, n + 1);
    }
  }

  /** A finished writer's lines are the checked batch, and appending them keeps the ledger good. */
  lemma FinishKeepsGood(file: seq<Entry>, w: Writer)
    requires Good(file) && OnTrack(Check, file, w) && w.Checking? && w.done == |w.batch|
    ensures Checked(Check, file, w.batch, w.lines) && Good(file + w.lines)
  {
    assert w.batch[..w.done] == w.batch;
    var dates :| |dates| == |w.batch| && CheckBatch(Check, KnownOf(file), w.batch, dates) == Some(w.lines);
    BatchKeepsGood(file, w.batch, dates);
  }

  /** The effect of a step on the file: none, or all of a checked batch appended; a writer that leaves without
      writing had nothing to write or a batch refused on any dates. */
  lemma StepOnFile(s: System, i: nat, s2: System, today: string)
    requires Inv(s) && StepOf(s, i, s2, today)
    ensures Good(s2.file)
    ensures s2.file == s.file ||
            exists lines :: Checked(Check, s.file, s.writers[i].batch, lines) && s2.file == s.file + lines
    ensures s.writers[i].Checking? && s2.writers[i].Idle? && s2.file == s.file ==>
              Refused(Check, s.file, s.writers[i].batch) || Checked(Check, s.file, s.writers[i].batch, [])
  {
    var w := s.writers[i];
    assert OnTrack(Check, s.file, w);
    if w.Checking? && w.done == |w.batch| {
      FinishKeepsGood(s.file, w);
      assert s2.file == s.file ==> w.lines == [];
    } else if w.Checking? {
      CheckDoes();
      CheckingOnTrack(Check, s.file, w, today);
    }
  }

  lemma StepOnWriter(s: System, i: nat, s2: System, today: string)
    requires Inv(s) && StepOf(s, i, s2, today)
    ensures |s2.writers| == |s.writers| && OnTrack(Check, s2.file, s2.writers[i])
    ensures InsideLock(s2.writers[i]) <==> s2.lock == Some(i)
  {
    var w := s.writers[i];
    assert OnTrack(Check, s.file, w);
    if w.Holding? {
      assert w.batch[..0] == [] && CheckBatch(Check, KnownOf(s.file), w.batch[..0], []) == Some([]);
    } else if w.Checking? && w.done < |w.batch| {
      CheckDoes();
      CheckingOnTrack(Check, s.file, w, today);
    }
  }

  /** Any step of any writer, on any date, keeps the invariant. */
  lemma StepKeepsInv(s: System, i: nat, s2: System, today: string)
    requires Inv(s) && StepOf(s, i, s2, today)
    ensures Inv(s2)
    ensures s.file <= s2.file
  {
    StepOnFile(s, i, s2, today);
    StepOnWriter(s, i, s2, today);
    forall j | 0 <= j < |s2.writers| && j != i
      ensures OnTrack(Check, s2.file, s2.writers[j])
      ensures InsideLock(s2.writers[j]) <==> s2.lock == Some(j)
    {
    }
  }

  ghost predicate Step(s: System, s2: System) {
    exists i: nat, today :: StepOf(s, i, s2, today)
  }

  /** A run: every state follows from the one before by a step of some writer, on whatever date. */
  ghost predicate IsRun(run: seq<System>) {
    && run != [] && Start(run[0])
    && forall k :: 0 <= k < |run| - 1 ==> Step(run[k], run[k + 1])
  }

  /** In every interleaving of any number of writers the ledger stays good and each state's file begins every
      later one. */
  lemma {:induction false} EveryRunGood(run: seq<System>, k: nat, m: nat)
    requires IsRun(run) && k <= m < |run|
    ensures Inv(run[m]) && Good(run[m].file) && run[k].file <= run[m].file
    decreases m
  {
    if m > 0 {
      EveryRunGood(run, if k < m then k else m - 1, m - 1);
      var i: nat, today :| StepOf(run[m - 1], i, run[m], today);
      StepKeepsInv(run[m - 1], i, run[m], today);
    }
  }
}
