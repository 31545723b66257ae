/** The object contract of `asm_audit.py`: what fails against a committed baseline, and what
    blessing writes into it. */
module AuditBless {
  import opened Common

  const HD_REQUIRED: seq<nat> := [128, 256, 512]
  const HD_GPTOSS: nat := 64
  const MERGE := "d_flash_merge"
  const FP8_KV := "PLOW_FP8_KV"
  const PERMUTE_FLOOR: nat := 64
  const LDS16_FLOOR: nat := 256

  type Profile = map<string, int>
  type Defines = map<string, string>
  type Arms = map<string, seq<nat>>

  datatype Sym = Sym(name: string, mfma: nat, bpermute: nat, narrowDs: nat)

  /** What is read out of one object. */
  datatype Facts = Facts(stem: string, arch: string, vgpr: nat, agpr: nat, lds: nat, occ: nat,
                         metaSpill: nat, isaSpill: nat, unmetered: nat, lies: map<string, nat>,
                         bpermute: nat, lds16: nat, arms: Arms, geom: Profile, syms: seq<Sym>)

  datatype Row = Row(defines: Defines, vgpr: nat, agpr: nat, lds: nat, occ: nat,
                     metaSpill: nat, isaSpill: nat, unmetered: nat, lies: map<string, nat>,
                     bpermute: nat, lds16: nat, arms: Arms, geom: string)

  datatype Baseline = Baseline(arch: Option<string>, objects: map<string, Row>, profiles: map<string, Profile>)

  /** Which macros are geometry, and how a define's text reads as a number. */
  datatype Rules = Rules(geometry: string -> bool, number: string -> Option<int>)

  datatype Field = Vgpr | Agpr | Lds | Occ

  datatype Failure =
    | MissingMarker(macro: string)
    | DidNotTake(macro: string)
    | MissingArms(dims: seq<nat>)
    | ExtraArms(dims: seq<nat>)
    | Budget(field: Field)
    | Knob(knob: string)
    | ExtraKnob(knob: string)
    | Lie(kernel: string)
    | Spill
    | ArmSet
    | Strict(note: Note)

  datatype Note = OtherAxes | UnbudgetedLie(kernel: string) | LieGone(kernel: string) | SpillBelow
                | NoMerge | Permutes(kernel: string) | NarrowReads(kernel: string)

  // --- the rules that need no baseline ------------------------------------

  function MacroFailures(f: Facts, defines: Defines, rules: Rules): set<Failure> {
    (set n | n in defines && rules.geometry(n) && n !in f.geom :: MissingMarker(n))
    + (set n | n in defines && rules.geometry(n) && n in f.geom
             && rules.number(defines[n]).Some? && f.geom[n] != rules.number(defines[n]).value :: DidNotTake(n))
  }

  function Need(defines: Defines): seq<nat> {
    HD_REQUIRED + if FP8_KV in defines && defines[FP8_KV] == "1" then [] else [HD_GPTOSS]
  }

  function Without(a: seq<nat>, b: seq<nat>): seq<nat> {
    if a == [] then [] else (if a[0] in b then [] else [a[0]]) + Without(a[1..], b)
  }

  function CoverageFailures(f: Facts, defines: Defines): set<Failure> {
    if MERGE !in f.arms then {}
    else
      var missing, extra := Without(Need(defines), f.arms[MERGE]), Without(f.arms[MERGE], Need(defines));
      (if missing == [] then {} else {MissingArms(missing)}) + (if extra == [] then {} else {ExtraArms(extra)})
  }

  lemma {:induction false} WithoutEmptyIff(a: seq<nat>, b: seq<nat>)
    ensures Without(a, b) == [] <==> forall x :: x in a ==> x in b
  {
    if a != [] {
      WithoutEmptyIff(a[1..], b);
    }
  }

  /** The object has to serve this head dimension: 64 unless it keeps its keys and values in FP8. */
  ghost predicate Served(hd: nat, defines: Defines) {
    hd == 128 || hd == 256 || hd == 512
    || (hd == 64 && ("PLOW_FP8_KV" in defines ==> defines["PLOW_FP8_KV"] != "1"))
  }

  lemma NeedIsServed(defines: Defines)
    ensures forall hd :: hd in Need(defines) <==> Served(hd, defines)
    ensures Distinct(Need(defines))
  {
  }

  /** An object with merge arms passes the coverage rule exactly when it has the arms of the head dimensions it has
      to serve, and no others. */
  lemma CoverageHeldIff(f: Facts, defines: Defines)
    requires MERGE in f.arms
    ensures CoverageFailures(f, defines) == {} <==>
            forall hd: nat :: Served(hd, defines) <==> hd in f.arms[MERGE]
  {
    var missing, extra := Without(Need(defines), f.arms[MERGE]), Without(f.arms[MERGE], Need(defines));
    WithoutEmptyIff(Need(defines), f.arms[MERGE]);
    WithoutEmptyIff(f.arms[MERGE], Need(defines));
    NeedIsServed(defines);
    if missing != [] {
      assert MissingArms(missing) in CoverageFailures(f, defines);
    }
    if extra != [] {
      assert ExtraArms(extra) in CoverageFailures(f, defines);
    }
  }

  lemma {:induction false} WithoutIs(a: seq<nat>, b: seq<nat>)
    ensures forall x :: x in Without(a, b) <==> x in a && x !in b
  {
    if a != [] {
      WithoutIs(a[1..], b);
    }
  }

  /** A failure of coverage lists exactly the head dimensions that are missing, or exactly those too many; an object
      without merge arms is not held to the rule. */
  lemma CoverageNames(f: Facts, defines: Defines, x: Failure)
    requires x in CoverageFailures(f, defines)
    ensures "d_flash_merge" in f.arms && (x.MissingArms? || x.ExtraArms?)
    ensures x.MissingArms? ==>
              forall hd :: hd in x.dims <==> Served(hd, defines) && hd !in f.arms["d_flash_merge"]
    ensures x.ExtraArms? ==>
              forall hd :: hd in x.dims <==> !Served(hd, defines) && hd in f.arms["d_flash_merge"]
    ensures x.dims != []
  {
    NeedIsServed(defines);
    WithoutIs(Need(defines), f.arms[MERGE]);
    WithoutIs(f.arms[MERGE], Need(defines));
  }

  /** What the rule on defines says: of the geometry macros it fails those the object carries no marker of, and those
      whose text is a number the marker does not show; nothing else. */
  lemma MacroFailsIff(f: Facts, defines: Defines, rules: Rules, x: Failure)
    ensures x in MacroFailures(f, defines, rules) <==>
            && (x.MissingMarker? || x.DidNotTake?)
            && x.macro in defines && rules.geometry(x.macro)
            && (if x.MissingMarker? then x.macro !in f.geom
                else x.macro in f.geom && exists n :: rules.number(defines[x.macro]) == Some(n) && f.geom[x.macro] != n)
  {
  }

  /** The rule on defines is met exactly when every geometry macro has a marker, and one that shows the number its
      text is. */
  lemma MacrosHeldIff(f: Facts, defines: Defines, rules: Rules)
    ensures MacroFailures(f, defines, rules) == {} <==>
            forall n :: n in defines && rules.geometry(n) ==>
              n in f.geom && (rules.number(defines[n]).None? || rules.number(defines[n]) == Some(f.geom[n]))
  {
    var fails := MacroFailures(f, defines, rules);
    forall n
      ensures MissingMarker(n) in fails <==> n in defines && rules.geometry(n) && n !in f.geom
      ensures DidNotTake(n) in fails <==>
              && n in defines && rules.geometry(n) && n in f.geom
              && rules.number(defines[n]).Some? && rules.number(defines[n]).value != f.geom[n]
    {
    }
  }

  function BaselineFree(f: Facts, defines: Defines, rules: Rules): set<Failure> {
    MacroFailures(f, defines, rules) + CoverageFailures(f, defines)
  }

  // --- the rules against a row --------------------------------------------

  function BudgetFailures(f: Facts, row: Row): set<Failure> {
    (if row.vgpr != f.vgpr then {Budget(Vgpr)} else {}) + (if row.agpr != f.agpr then {Budget(Agpr)} else {})
    + (if row.lds != f.lds then {Budget(Lds)} else {}) + (if row.occ != f.occ then {Budget(Occ)} else {})
  }

  function GeometryFailures(f: Facts, profile: Profile): set<Failure> {
    (set k | k in profile && (k !in f.geom || f.geom[k] != profile[k]) :: Knob(k))
    + (set k | k in f.geom && k !in profile :: ExtraKnob(k))
  }

  function LieFailures(f: Facts, row: Row): set<Failure> {
    set k | k in f.lies && (k !in row.lies || f.lies[k] > row.lies[k]) :: Lie(k)
  }

  function RowFailures(f: Facts, row: Row, profile: Profile): set<Failure> {
    BudgetFailures(f, row) + GeometryFailures(f, profile) + LieFailures(f, row)
    + (if f.isaSpill > row.isaSpill then {Spill} else {}) + (if f.arms != row.arms then {ArmSet} else {})
  }

  /** The row an object is compared with: its own, if it was built with the recorded axes. */
  function Matching(f: Facts, b: Baseline, defines: Defines): Option<Row> {
    if f.stem in b.objects && b.objects[f.stem].defines == defines then Some(b.objects[f.stem]) else None
  }

  function ProfileOf(b: Baseline, row: Row): Profile {
    if row.geom in b.profiles then b.profiles[row.geom] else map[]
  }

  function Failures(f: Facts, b: Baseline, defines: Defines, rules: Rules): set<Failure> {
    BaselineFree(f, defines, rules)
    + match Matching(f, b, defines)
      case None => {}
      case Some(row) => RowFailures(f, row, ProfileOf(b, row))
  }

  // --- advisories ---------------------------------------------------------

  predicate PermuteHeavy(s: Sym) { s.mfma > 0 && s.bpermute >= PERMUTE_FLOOR && s.bpermute >= 2 * s.mfma }

  predicate NarrowHeavy(s: Sym) { s.mfma > 0 && s.narrowDs >= LDS16_FLOOR && 2 * s.narrowDs >= 3 * s.mfma }

  function BodyNotes(syms: seq<Sym>): set<Note> {
    (set s | s in syms && PermuteHeavy(s) :: Permutes(s.name))
    + (set s | s in syms && NarrowHeavy(s) :: NarrowReads(s.name))
  }

  /** A body is named for its permutes when there are at least 64 of them, two or more to each matrix instruction; for
      its narrow reads when there are at least 256, three or more to each two matrix instructions. */
  lemma BodyNotedIff(syms: seq<Sym>, note: Note)
    ensures note in BodyNotes(syms) <==>
            exists s :: s in syms && s.mfma > 0 &&
              ((note == Permutes(s.name) && s.bpermute >= 64 && s.bpermute as real >= 2.0 * s.mfma as real) ||
               (note == NarrowReads(s.name) && s.narrowDs >= 256 && s.narrowDs as real >= 1.5 * s.mfma as real))
  {
    forall s: Sym
      ensures PermuteHeavy(s) <==> s.mfma > 0 && s.bpermute >= 64 && s.bpermute as real >= 2.0 * s.mfma as real
      ensures NarrowHeavy(s) <==> s.mfma > 0 && s.narrowDs >= 256 && s.narrowDs as real >= 1.5 * s.mfma as real
    {
    }
  }

  function Reports(f: Facts): set<Note> {
    (if MERGE in f.arms then {} else {NoMerge}) + BodyNotes(f.syms)
  }

  function RowNotes(f: Facts, row: Row): set<Note> {
    (set k | k in row.lies && k !in f.lies :: LieGone(k)) + (if f.isaSpill < row.isaSpill then {SpillBelow} else {})
  }

  function Notes(f: Facts, b: Baseline, defines: Defines): set<Note> {
    Reports(f)
    + match Matching(f, b, defines)
      case None => (if f.stem in b.objects then {OtherAxes} else {}) + (set k | k in f.lies :: UnbudgetedLie(k))
      case Some(row) => RowNotes(f, row)
  }

  // --- when a row holds ---------------------------------------------------

  /** Same resources, geometry and arms; no more spill, in all and per under-reporting kernel. */
  ghost predicate HeldBy(f: Facts, row: Row, profile: Profile) {
    && f.vgpr == row.vgpr && f.agpr == row.agpr && f.lds == row.lds && f.occ == row.occ
    && f.geom == profile && f.arms == row.arms
    && f.isaSpill <= row.isaSpill
    && forall k :: k in f.lies ==> k in row.lies && f.lies[k] <= row.lies[k]
  }

  lemma GeometryHeldIff(f: Facts, profile: Profile)
    ensures GeometryFailures(f, profile) == {} <==> f.geom == profile
  {
    if GeometryFailures(f, profile) == {} {
      forall k
        ensures k in f.geom <==> k in profile
        ensures k in profile ==> f.geom[k] == profile[k]
      {
        assert Knob(k) !in GeometryFailures(f, profile) && ExtraKnob(k) !in GeometryFailures(f, profile);
      }
    }
  }

  lemma LiesHeldIff(f: Facts, row: Row)
    ensures LieFailures(f, row) == {} <==> forall k :: k in f.lies ==> k in row.lies && f.lies[k] <= row.lies[k]
  {
    if LieFailures(f, row) == {} {
      forall k | k in f.lies
        ensures k in row.lies && f.lies[k] <= row.lies[k]
      {
        assert Lie(k) !in LieFailures(f, row);
      }
    }
  }

  lemma BudgetHeldIff(f: Facts, row: Row)
    ensures BudgetFailures(f, row) == {} <==>
              f.vgpr == row.vgpr && f.agpr == row.agpr && f.lds == row.lds && f.occ == row.occ
  {
    var fails := BudgetFailures(f, row);
    assert Budget(Vgpr) in fails <==> f.vgpr != row.vgpr;
    assert Budget(Agpr) in fails <==> f.agpr != row.agpr;
    assert Budget(Lds) in fails <==> f.lds != row.lds;
    assert Budget(Occ) in fails <==> f.occ != row.occ;
  }

  lemma UnionEmptyIff<T>(a: set<T>, b: set<T>)
    ensures a + b == {} <==> a == {} && b == {}
  {
    if a + b == {} {
      assert forall x :: x in a ==> x in a + b;
      assert forall x :: x in b ==> x in a + b;
    }
  }

  /** A row adds no failure exactly when the object holds it: every change of registers, LDS,
      occupancy, geometry or arms fails, and so does every rise in spill. */
  lemma RowHeldIff(f: Facts, row: Row, profile: Profile)
    ensures RowFailures(f, row, profile) == {} <==> HeldBy(f, row, profile)
  {
    BudgetHeldIff(f, row);
    GeometryHeldIff(f, profile);
    LiesHeldIff(f, row);
    var a, b, c := BudgetFailures(f, row), GeometryFailures(f, profile), LieFailures(f, row);
    var d: set<Failure> := if f.isaSpill > row.isaSpill then {Spill} else {};
    var e: set<Failure> := if f.arms != row.arms then {ArmSet} else {};
    UnionEmptyIff(a, b);
    UnionEmptyIff(a + b, c);
    UnionEmptyIff(a + b + c, d);
    UnionEmptyIff(a + b + c + d, e);
  }

  predicate NeedsNoBaseline(x: Failure) {
    x.MissingMarker? || x.DidNotTake? || x.MissingArms? || x.ExtraArms?
  }

  lemma FreeOrNot(f: Facts, row: Row, profile: Profile, defines: Defines, rules: Rules)
    ensures forall x :: x in BaselineFree(f, defines, rules) ==> NeedsNoBaseline(x)
    ensures forall x :: x in RowFailures(f, row, profile) ==> !NeedsNoBaseline(x)
  {
    FreeNeedsNone(f, defines, rules);
    RowNeedsRow(f, row, profile);
  }

  lemma FreeNeedsNone(f: Facts, defines: Defines, rules: Rules)
    ensures forall x :: x in BaselineFree(f, defines, rules) ==> NeedsNoBaseline(x)
  {
  }

  lemma RowNeedsRow(f: Facts, row: Row, profile: Profile)
    ensures forall x :: x in RowFailures(f, row, profile) ==> !NeedsNoBaseline(x)
  {
  }

  /** The failures of an object are those it would have with no baseline at all exactly when it
      holds the row it is compared with, or is compared with none. */
  lemma DriftIff(f: Facts, b: Baseline, defines: Defines, rules: Rules)
    ensures Failures(f, b, defines, rules) == BaselineFree(f, defines, rules)
       <==> match Matching(f, b, defines)
            case None => true
            case Some(row) => HeldBy(f, row, ProfileOf(b, row))
  {
    match Matching(f, b, defines) {
      case None =>
      case Some(row) =>
        var profile := ProfileOf(b, row);
        FreeOrNot(f, row, profile, defines, rules);
        RowHeldIff(f, row, profile);
        if Failures(f, b, defines, rules) == BaselineFree(f, defines, rules) {
          assert forall x :: x in RowFailures(f, row, profile) ==> x in Failures(f, b, defines, rules);
          assert RowFailures(f, row, profile) == {};
        }
    }
  }

  /** An under-reported spill fails exactly where a matching row records less of it. */
  lemma LieFailsIff(f: Facts, b: Baseline, defines: Defines, rules: Rules, kernel: string)
    requires kernel in f.lies
    ensures Lie(kernel) in Failures(f, b, defines, rules)
       <==> match Matching(f, b, defines)
            case None => false
            case Some(row) => kernel !in row.lies || row.lies[kernel] < f.lies[kernel]
  {
    LieNeedsRow(f, defines, rules, kernel);
    match Matching(f, b, defines) {
      case None =>
      case Some(row) =>
        LieInRow(f, row, ProfileOf(b, row), kernel);
    }
  }

  lemma LieNeedsRow(f: Facts, defines: Defines, rules: Rules, kernel: string)
    ensures Lie(kernel) !in BaselineFree(f, defines, rules)
  {
  }

  lemma LieInRow(f: Facts, row: Row, profile: Profile, kernel: string)
    ensures Lie(kernel) in RowFailures(f, row, profile) <==> Lie(kernel) in LieFailures(f, row)
  {
    assert Lie(kernel) !in BudgetFailures(f, row) && Lie(kernel) !in GeometryFailures(f, profile);
  }

  /** With nothing recorded, an object that under-reports a spill passes with an advisory. */
  lemma UnrecordedLiePasses(rules: Rules)
    ensures var f := Facts("object", "arch", 0, 0, 0, 0, 0, 1, 1, map["kernel" := 1], 0, 0, map[], map[], []);
            var b := Baseline(None, map[], map[]);
            Failures(f, b, map[], rules) == {} && UnbudgetedLie("kernel") in Notes(f, b, map[])
  {
  }

  // --- the contract as it runs --------------------------------------------

  /** The elements of a set as a list; the source's alphabetical order is not kept. */
  method Listed<T(==)>(s: set<T>) returns (r: seq<T>)
    ensures forall x :: x in r <==> x in s
    ensures Distinct(r)
  {
    r := [];
    var rest := s;
    while rest != {}
      invariant rest <= s
      invariant forall x :: x in r <==> x in s && x !in rest
      invariant Distinct(r)
      decreases |rest|
    {
      var x :| x in rest;
      r, rest := r + [x], rest - {x};
    }
  }

  method CheckMacros(f: Facts, defines: Defines, rules: Rules) returns (fails: seq<Failure>)
    ensures forall x :: x in fails <==> x in MacroFailures(f, defines, rules)
  {
    var names := Listed(defines.Keys);
    fails := [];
    for i := 0 to |names|
      invariant forall x :: x in fails ==> x in MacroFailures(f, defines, rules)
      invariant forall j :: 0 <= j < i ==>
                  && (MissingMarker(names[j]) in MacroFailures(f, defines, rules) ==> MissingMarker(names[j]) in fails)
                  && (DidNotTake(names[j]) in MacroFailures(f, defines, rules) ==> DidNotTake(names[j]) in fails)
    {
      var name := names[i];
      if !rules.geometry(name) {
        continue;
      }
      if name !in f.geom {
        fails := fails + [MissingMarker(name)];
        continue;
      }
      var value := rules.number(defines[name]);
      if value.Some? && f.geom[name] != value.value {
        fails := fails + [DidNotTake(name)];
      }
    }
    assert forall n :: n in defines ==> n in names;
  }

  method CheckGeometry(f: Facts, profile: Profile) returns (fails: seq<Failure>)
    ensures forall x :: x in fails <==> x in GeometryFailures(f, profile)
  {
    var knobs := Listed(profile.Keys);
    fails := [];
    for i := 0 to |knobs|
      invariant forall x :: x in fails ==> x.Knob? && x in GeometryFailures(f, profile)
      invariant forall j :: 0 <= j < i && Knob(knobs[j]) in GeometryFailures(f, profile) ==> Knob(knobs[j]) in fails
    {
      assert knobs[i] in profile.Keys;
      if knobs[i] !in f.geom || f.geom[knobs[i]] != profile[knobs[i]] {
        fails := fails + [Knob(knobs[i])];
      }
    }
    assert forall k :: k in profile ==> k in knobs;
    var extra := Listed(f.geom.Keys - profile.Keys);
    for i := 0 to |extra|
      invariant forall x :: x in fails ==> x in GeometryFailures(f, profile)
      invariant forall k :: k in profile && Knob(k) in GeometryFailures(f, profile) ==> Knob(k) in fails
      invariant forall j :: 0 <= j < i ==> ExtraKnob(extra[j]) in fails
    {
      assert extra[i] in extra;
      assert ExtraKnob(extra[i]) in GeometryFailures(f, profile);
      fails := fails + [ExtraKnob(extra[i])];
    }
    forall k | ExtraKnob(k) in GeometryFailures(f, profile)
      ensures ExtraKnob(k) in fails
    {
      assert k in extra;
    }
  }

  method CheckLies(f: Facts, want: Option<Row>) returns (fails: seq<Failure>, notes: seq<Note>)
    ensures forall x :: x in fails <==> want.Some? && x in LieFailures(f, want.value)
    ensures want.None? ==> fails == []
    ensures forall x :: x in notes <==>
              match want
              case None => x.UnbudgetedLie? && x.kernel in f.lies
              case Some(row) => x.LieGone? && x.kernel in row.lies && x.kernel !in f.lies
  {
    fails, notes := [], [];
    var names := Listed(f.lies.Keys);
    for i := 0 to |names|
      invariant want.None? ==> fails == []
      invariant want.Some? ==> notes == []
      invariant forall x :: x in fails ==> want.Some? && x in LieFailures(f, want.value)
      invariant forall x :: x in notes ==> want.None? && x.UnbudgetedLie? && x.kernel in f.lies
      invariant want.None? ==> forall j :: 0 <= j < i ==> UnbudgetedLie(names[j]) in notes
      invariant want.Some? ==>
                  forall j :: 0 <= j < i && Lie(names[j]) in LieFailures(f, want.value) ==> Lie(names[j]) in fails
    {
      assert names[i] in f.lies.Keys;
      if want.None? {
        notes := notes + [UnbudgetedLie(names[i])];
      } else if names[i] !in want.value.lies || f.lies[names[i]] > want.value.lies[names[i]] {
        fails := fails + [Lie(names[i])];
      }
    }
    assert forall k :: k in f.lies ==> k in names;
    if want.Some? {
      var gone := Listed(want.value.lies.Keys - f.lies.Keys);
      for i := 0 to |gone|
        invariant forall x :: x in notes <==> x.LieGone? && x.kernel in gone[..i]
      {
        notes := notes + [LieGone(gone[i])];
        assert gone[..i + 1] == gone[..i] + [gone[i]];
      }
      assert gone[..|gone|] == gone;
    }
  }

  method CheckCoverage(f: Facts, defines: Defines) returns (fails: seq<Failure>, notes: seq<Note>)
    ensures forall x :: x in fails <==> x in CoverageFailures(f, defines)
    ensures notes == if MERGE in f.arms then [] else [NoMerge]
  {
    fails, notes := [], [];
    if MERGE in f.arms {
      var missing, extra := Without(Need(defines), f.arms[MERGE]), Without(f.arms[MERGE], Need(defines));
      if missing != [] {
        fails := fails + [MissingArms(missing)];
      }
      if extra != [] {
        fails := fails + [ExtraArms(extra)];
      }
    } else {
      notes := [NoMerge];
    }
  }

  method CheckBodies(syms: seq<Sym>) returns (notes: seq<Note>)
    ensures forall x :: x in notes <==> x in BodyNotes(syms)
  {
    notes := [];
    for i := 0 to |syms|
      invariant forall x :: x in notes <==>
                  exists j :: 0 <= j < i && PermuteHeavy(syms[j]) && x == Permutes(syms[j].name)
    {
      if PermuteHeavy(syms[i]) {
        notes := notes + [Permutes(syms[i].name)];
      }
    }
    ghost var before := notes;
    for i := 0 to |syms|
      invariant forall x :: x in notes <==>
                  x in before || exists j :: 0 <= j < i && NarrowHeavy(syms[j]) && x == NarrowReads(syms[j].name)
    {
      if NarrowHeavy(syms[i]) {
        notes := notes + [NarrowReads(syms[i].name)];
      }
    }
  }

  method CheckBudget(f: Facts, row: Row) returns (fails: seq<Failure>)
    ensures forall x :: x in fails <==> x in BudgetFailures(f, row)
  {
    var fields := [(Vgpr, row.vgpr, f.vgpr), (Agpr, row.agpr, f.agpr), (Lds, row.lds, f.lds), (Occ, row.occ, f.occ)];
    fails := [];
    for i := 0 to 4
      invariant forall x :: x in fails <==>
                  exists j :: 0 <= j < i && fields[j].1 != fields[j].2 && x == Budget(fields[j].0)
    {
      if fields[i].1 != fields[i].2 {
        fails := fails + [Budget(fields[i].0)];
      }
    }
    assert fields[0].0 == Vgpr && fields[1].0 == Agpr && fields[2].0 == Lds && fields[3].0 == Occ;
  }

  ghost predicate Lists<T(!new)>(s: seq<T>, t: set<T>) {
    forall x :: x in s <==> x in t
  }

  lemma ListsBoth<T(!new)>(a: seq<T>, s: set<T>, b: seq<T>, t: set<T>)
    requires Lists(a, s) && Lists(b, t)
    ensures Lists(a + b, s + t)
  {
  }

  function SpillFailures(f: Facts, want: Option<Row>): seq<Failure> {
    if want.Some? && f.isaSpill > want.value.isaSpill then [Spill] else []
  }

  function SpillNotes(f: Facts, want: Option<Row>): seq<Note> {
    if want.Some? && f.isaSpill < want.value.isaSpill then [SpillBelow] else []
  }

  function ArmSetFailures(f: Facts, want: Option<Row>): seq<Failure> {
    if want.Some? && f.arms != want.value.arms then [ArmSet] else []
  }

  method CheckResources(f: Facts, b: Baseline, want: Option<Row>) returns (fails: seq<Failure>)
    ensures want.None? ==> fails == []
    ensures want.Some? ==>
              Lists(fails, BudgetFailures(f, want.value) + GeometryFailures(f, ProfileOf(b, want.value)))
  {
    fails := [];
    if want.Some? {
      var budget := CheckBudget(f, want.value);
      var geometry := CheckGeometry(f, ProfileOf(b, want.value));
      ListsBoth(budget, BudgetFailures(f, want.value), geometry, GeometryFailures(f, ProfileOf(b, want.value)));
      fails := budget + geometry;
    }
  }

  /** The failures of the six checks, in the source's order, are those of the definition. */
  lemma InSourceOrder(m: seq<Failure>, r: seq<Failure>, l: seq<Failure>, s: seq<Failure>, c: seq<Failure>,
                      a: seq<Failure>, f: Facts, b: Baseline, defines: Defines, rules: Rules)
    requires Lists(m, MacroFailures(f, defines, rules)) && Lists(c, CoverageFailures(f, defines))
    requires s == SpillFailures(f, Matching(f, b, defines)) && a == ArmSetFailures(f, Matching(f, b, defines))
    requires match Matching(f, b, defines)
             case None => r == [] && l == []
             case Some(row) =>
               Lists(r, BudgetFailures(f, row) + GeometryFailures(f, ProfileOf(b, row))) &&
               Lists(l, LieFailures(f, row))
    ensures Lists(m + r + l + s + c + a, Failures(f, b, defines, rules))
  {
    match Matching(f, b, defines) {
      case None =>
        assert m + r + l + s + c + a == m + c;
        ListsBoth(m, MacroFailures(f, defines, rules), c, CoverageFailures(f, defines));
      case Some(row) =>
        var rs, ls := BudgetFailures(f, row) + GeometryFailures(f, ProfileOf(b, row)), LieFailures(f, row);
        var ss: set<Failure> := if f.isaSpill > row.isaSpill then {Spill} else {};
        var arm: set<Failure> := if f.arms != row.arms then {ArmSet} else {};
        SixLists(m, MacroFailures(f, defines, rules), r, rs, l, ls, s, ss, c, CoverageFailures(f, defines), a, arm);
    }
  }

  lemma SixLists<T(!new)>(m: seq<T>, ms: set<T>, r: seq<T>, rs: set<T>, l: seq<T>, ls: set<T>,
                          s: seq<T>, ss: set<T>, c: seq<T>, cs: set<T>, a: seq<T>, arm: set<T>)
    requires Lists(m, ms) && Lists(r, rs) && Lists(l, ls) && Lists(s, ss) && Lists(c, cs) && Lists(a, arm)
    ensures Lists(m + r + l + s + c + a, ms + cs + (rs + ls + ss + arm))
  {
  }

  lemma NotesInSourceOrder(first: seq<Note>, lies: seq<Note>, arm: seq<Note>, bodies: seq<Note>,
                           f: Facts, b: Baseline, defines: Defines)
    requires first == if f.stem in b.objects && Matching(f, b, defines).None? then [OtherAxes] else []
    requires arm == if MERGE in f.arms then [] else [NoMerge]
    requires Lists(bodies, BodyNotes(f.syms))
    requires forall x :: x in lies <==>
               match Matching(f, b, defines)
               case None => x.UnbudgetedLie? && x.kernel in f.lies
               case Some(row) => x.LieGone? && x.kernel in row.lies && x.kernel !in f.lies
    ensures Lists(first + lies + SpillNotes(f, Matching(f, b, defines)) + arm + bodies, Notes(f, b, defines))
  {
    var spill := SpillNotes(f, Matching(f, b, defines));
    forall x
      ensures x in first + lies + spill + arm + bodies <==> x in Notes(f, b, defines)
    {
      assert x in first + lies + spill + arm + bodies <==>
             x in first || x in lies || x in spill || x in arm || x in bodies;
    }
  }

  /** The six checks over one object, in the source's order. */
  method Examine(f: Facts, b: Baseline, defines: Defines, rules: Rules)
    returns (fails: seq<Failure>, notes: seq<Note>)
    ensures Lists(fails, Failures(f, b, defines, rules))
    ensures Lists(notes, Notes(f, b, defines))
  {
    var macros := CheckMacros(f, defines, rules);
    var want: Option<Row> := if f.stem in b.objects then Some(b.objects[f.stem]) else None;
    var axes: seq<Note> := [];
    if want.Some? && want.value.defines != defines {
      axes, want := [OtherAxes], None;
    }
    var resources := CheckResources(f, b, want);
    var lies, lieNotes := CheckLies(f, want);
    var coverage, armNotes := CheckCoverage(f, defines);
    var bodies := CheckBodies(f.syms);
    fails := macros + resources + lies + SpillFailures(f, want) + coverage + ArmSetFailures(f, want);
    InSourceOrder(macros, resources, lies, SpillFailures(f, want), coverage, ArmSetFailures(f, want),
                  f, b, defines, rules);
    notes := axes + lieNotes + SpillNotes(f, want) + armNotes + bodies;
    NotesInSourceOrder(axes, lieNotes, armNotes, bodies, f, b, defines);
  }

  /** The contract; `strict` turns advisories into failures. */
  method Contract(f: Facts, b: Baseline, defines: Defines, rules: Rules, strict: bool)
    returns (fails: seq<Failure>, notes: seq<Note>)
    ensures !strict ==> Lists(fails, Failures(f, b, defines, rules)) && Lists(notes, Notes(f, b, defines))
    ensures strict ==> notes == []
    ensures strict ==> forall x :: x in fails <==>
              x in Failures(f, b, defines, rules) || (x.Strict? && x.note in Notes(f, b, defines))
  {
    fails, notes := Examine(f, b, defines, rules);
    if strict {
      ghost var was := fails;
      for i := 0 to |notes|
        invariant forall x :: x in fails <==> x in was || (x.Strict? && x.note in notes[..i])
      {
        fails := fails + [Strict(notes[i])];
        assert notes[..i + 1] == notes[..i] + [notes[i]];
      }
      assert notes[..|notes|] == notes;
      notes := [];
    }
  }

  // --- blessing -----------------------------------------------------------

  function RowOf(f: Facts, defines: Defines, geom: string): Row {
    Row(defines, f.vgpr, f.agpr, f.lds, f.occ, f.metaSpill, f.isaSpill, f.unmetered, f.lies,
        f.bpermute, f.lds16, f.arms, geom)
  }

  function ProfileName(n: nat): string { "p" + Decimal(n) }

  lemma ProfileNameInjective(a: nat, b: nat)
    requires ProfileName(a) == ProfileName(b)
    ensures a == b
  {
    assert Decimal(a) == ProfileName(a)[1..] && Decimal(b) == ProfileName(b)[1..];
    DecimalInjective(a, b);
  }

  /** Names stand for profiles one to one, numbered in order of appearance. */
  ghost predicate Interned(seen: map<Profile, string>, named: map<string, Profile>, count: nat) {
    && |seen| == |named| == count
    && (forall p :: p in seen ==> seen[p] in named && named[seen[p]] == p)
    && (forall n :: n in named ==> named[n] in seen && seen[named[n]] == n)
    && NamedBelow(named, count)
  }

  ghost predicate NamedBelow(named: map<string, Profile>, count: nat) {
    forall n :: n in named ==> exists k: nat :: k < count && n == ProfileName(k)
  }

  lemma NamedNext(named: map<string, Profile>, count: nat, key: Profile)
    requires NamedBelow(named, count)
    ensures NamedBelow(named[ProfileName(count) := key], count + 1) && ProfileName(count) !in named
  {
    if ProfileName(count) in named {
      var k: nat :| k < count && ProfileName(count) == ProfileName(k);
      ProfileNameInjective(k, count);
    }
    var after := named[ProfileName(count) := key];
    forall n | n in after
      ensures exists k: nat :: k < count + 1 && n == ProfileName(k)
    {
      if n in named {
        var k: nat :| k < count && n == ProfileName(k);
      }
    }
  }

  lemma InternNew(seen: map<Profile, string>, named: map<string, Profile>, key: Profile)
    requires Interned(seen, named, |seen|) && key !in seen
    ensures var name := ProfileName(|seen|);
            name !in named && Interned(seen[key := name], named[name := key], |seen| + 1)
  {
    NamedNext(named, |seen|, key);
  }

  /** The stems met so far have the names of their profiles, and every name is used. */
  ghost predicate Assigned(geom: map<string, string>, named: map<string, Profile>, seen: map<Profile, string>,
                           profiles: map<string, Profile>, done: seq<string>)
    requires forall s :: s in done ==> s in profiles
  {
    && (forall s :: s in geom <==> s in done)
    && (forall s :: s in done ==> profiles[s] in seen && s in geom && geom[s] == seen[profiles[s]])
    && (forall n :: n in named ==> exists s :: s in geom && geom[s] == n)
  }

  /** Every stem's name leads back to its own profile, two stems share a name exactly when their
      profiles are equal, and no name is idle. */
  ghost predicate Shared(geom: map<string, string>, named: map<string, Profile>, profiles: map<string, Profile>) {
    && geom.Keys == profiles.Keys
    && (forall s :: s in geom ==> geom[s] in named && named[geom[s]] == profiles[s])
    && (forall s, t :: s in geom && t in geom ==> (geom[s] == geom[t] <==> profiles[s] == profiles[t]))
    && (forall n :: n in named ==> exists s :: s in geom && geom[s] == n)
  }

  /** The names are p0, p1 and so on. */
  ghost predicate Numbered(named: map<string, Profile>) {
    forall n :: n in named ==> exists k: nat :: k < |named| && n == "p" + Decimal(k)
  }

  lemma InternedNumbered(seen: map<Profile, string>, named: map<string, Profile>)
    requires Interned(seen, named, |seen|)
    ensures Numbered(named)
  {
    forall n | n in named
      ensures exists k: nat :: k < |named| && n == "p" + Decimal(k)
    {
      var k: nat :| k < |seen| && n == ProfileName(k);
      assert n == "p" + Decimal(k);
    }
  }

  /** Shares equal profiles under one name. */
  method Intern(order: seq<string>, profiles: map<string, Profile>)
    returns (geom: map<string, string>, named: map<string, Profile>)
    requires forall s :: s in order <==> s in profiles
    ensures Shared(geom, named, profiles) && Numbered(named)
  {
    var seen: map<Profile, string> := map[];
    geom, named := map[], map[];
    for i := 0 to |order|
      invariant Interned(seen, named, |seen|)
      invariant forall s :: s in order[..i] ==> s in profiles
      invariant Assigned(geom, named, seen, profiles, order[..i])
    {
      assert order[..i + 1] == order[..i] + [order[i]] && order[i] in order;
      seen, named, geom := InternOne(seen, named, geom, profiles, order[i], order[..i]);
    }
    assert order[..|order|] == order;
    InternedNumbered(seen, named);
  }

  method InternOne(seen: map<Profile, string>, named: map<string, Profile>, geom: map<string, string>,
                   profiles: map<string, Profile>, stem: string, ghost done: seq<string>)
    returns (seen2: map<Profile, string>, named2: map<string, Profile>, geom2: map<string, string>)
    requires stem in profiles && forall s :: s in done ==> s in profiles
    requires Interned(seen, named, |seen|) && Assigned(geom, named, seen, profiles, done)
    ensures Interned(seen2, named2, |seen2|) && Assigned(geom2, named2, seen2, profiles, done + [stem])
  {
    var key := profiles[stem];
    if key in seen {
      AssignOld(geom, named, seen, profiles, done, stem);
      seen2, named2 := seen, named;
    } else {
      var name := ProfileName(|seen|);
      InternNew(seen, named, key);
      AssignNew(geom, named, seen, profiles, done, stem);
      seen2, named2 := seen[key := name], named[name := key];
    }
    geom2 := geom[stem := seen2[key]];
  }

  lemma AssignNew(geom: map<string, string>, named: map<string, Profile>, seen: map<Profile, string>,
                  profiles: map<string, Profile>, done: seq<string>, stem: string)
    requires stem in profiles && forall s :: s in done ==> s in profiles
    requires Assigned(geom, named, seen, profiles, done) && profiles[stem] !in seen
    ensures var name := ProfileName(|seen|);
            Assigned(geom[stem := name], named[name := profiles[stem]], seen[profiles[stem] := name], profiles,
                     done + [stem])
  {
    var name := ProfileName(|seen|);
    var next := geom[stem := name];
    assert stem !in geom;
    var after := named[name := profiles[stem]];
    forall n | n in after
      ensures exists s :: s in next && next[s] == n
    {
      if n == name {
        assert next[stem] == n;
      } else {
        var s :| s in geom && geom[s] == n;
        assert next[s] == n;
      }
    }
  }

  lemma AssignOld(geom: map<string, string>, named: map<string, Profile>, seen: map<Profile, string>,
                  profiles: map<string, Profile>, done: seq<string>, stem: string)
    requires stem in profiles && forall s :: s in done ==> s in profiles
    requires Assigned(geom, named, seen, profiles, done) && profiles[stem] in seen
    ensures Assigned(geom[stem := seen[profiles[stem]]], named, seen, profiles, done + [stem])
  {
    var next := geom[stem := seen[profiles[stem]]];
    assert forall s :: s in geom ==> s in next && next[s] == geom[s];
  }

  function DefinesOf(defines: map<string, Defines>, stem: string): Defines {
    if stem in defines then defines[stem] else map[]
  }

  /** The objects of a blessing by stem; of two with one stem the later is kept. */
  function ByStem(objects: seq<Facts>): (m: map<string, Facts>)
    ensures forall s :: s in m ==> m[s] in objects && m[s].stem == s
    ensures forall f :: f in objects ==> f.stem in m
  {
    if objects == [] then map[]
    else ByStem(objects[..|objects| - 1])[objects[|objects| - 1].stem := objects[|objects| - 1]]
  }

  ghost predicate DistinctStems(objects: seq<Facts>) {
    forall i, j :: 0 <= i < j < |objects| ==> objects[i].stem != objects[j].stem
  }

  /** The row of stem `s` is that of object `f`, and leads to its geometry. */
  ghost predicate RecordsObject(b: Baseline, s: string, f: Facts, defines: map<string, Defines>) {
    && s in b.objects && b.objects[s] == RowOf(f, DefinesOf(defines, s), b.objects[s].geom)
    && ProfileOf(b, b.objects[s]) == f.geom
  }

  /** What a recorded row holds of its object, field by field. */
  lemma RecordedFields(b: Baseline, s: string, f: Facts, defines: map<string, Defines>)
    requires RecordsObject(b, s, f, defines)
    ensures var row := b.objects[s];
            && row.vgpr == f.vgpr && row.agpr == f.agpr && row.lds == f.lds && row.occ == f.occ
            && row.metaSpill == f.metaSpill && row.isaSpill == f.isaSpill && row.unmetered == f.unmetered
            && row.lies == f.lies && row.bpermute == f.bpermute && row.lds16 == f.lds16 && row.arms == f.arms
            && (s in defines ==> row.defines == defines[s]) && (s !in defines ==> row.defines == map[])
            && (row.geom in b.profiles ==> b.profiles[row.geom] == f.geom)
  {
  }

  /** A baseline that records these objects and nothing else. */
  ghost predicate Records(b: Baseline, objects: seq<Facts>, defines: map<string, Defines>) {
    && b.objects.Keys == ByStem(objects).Keys
    && forall s :: s in b.objects ==> RecordsObject(b, s, ByStem(objects)[s], defines)
  }

  function Geometries(facts: map<string, Facts>): map<string, Profile> {
    map s | s in facts :: facts[s].geom
  }

  function RowsOf(facts: map<string, Facts>, defines: map<string, Defines>, geom: map<string, string>): map<string, Row>
    requires facts.Keys == geom.Keys
  {
    map s | s in facts :: RowOf(facts[s], DefinesOf(defines, s), geom[s])
  }

  method Gather(objects: seq<Facts>) returns (facts: map<string, Facts>)
    ensures facts == ByStem(objects)
  {
    facts := map[];
    for i := 0 to |objects|
      invariant facts == ByStem(objects[..i])
    {
      assert objects[..i + 1][..i] == objects[..i];
      facts := facts[objects[i].stem := objects[i]];
    }
    assert objects[..|objects|] == objects;
  }

  function GeomNames(rows: map<string, Row>): map<string, string> {
    map s | s in rows :: rows[s].geom
  }

  /** Rewrites the rows and the profiles, and nothing else of the baseline. */
  method Bless(before: Baseline, objects: seq<Facts>, defines: map<string, Defines>) returns (b: Baseline)
    ensures b.arch == before.arch && Records(b, objects, defines)
    ensures Shared(GeomNames(b.objects), b.profiles, Geometries(ByStem(objects))) && Numbered(b.profiles)
  {
    var facts := Gather(objects);
    var order := Listed(facts.Keys);
    var geom, named := Intern(order, Geometries(facts));
    b := Baseline(before.arch, RowsOf(facts, defines, geom), named);
    InternedRecords(b, objects, defines, facts, geom);
    GeomNamesOf(facts, defines, geom);
  }

  lemma InternedRecords(b: Baseline, objects: seq<Facts>, defines: map<string, Defines>, facts: map<string, Facts>,
                        geom: map<string, string>)
    requires facts == ByStem(objects) && Shared(geom, b.profiles, Geometries(facts))
    requires b.objects == RowsOf(facts, defines, geom)
    ensures Records(b, objects, defines)
  {
    EachRecorded(b, facts, defines, geom);
    AllRecorded(b, objects, defines);
  }

  lemma EachRecorded(b: Baseline, facts: map<string, Facts>, defines: map<string, Defines>, geom: map<string, string>)
    requires Shared(geom, b.profiles, Geometries(facts)) && b.objects == RowsOf(facts, defines, geom)
    ensures b.objects.Keys == facts.Keys && forall s :: s in facts ==> RecordsObject(b, s, facts[s], defines)
  {
    forall s | s in facts
      ensures RecordsObject(b, s, facts[s], defines)
    {
      InternedRecord(b, facts, defines, geom, s);
    }
  }

  lemma AllRecorded(b: Baseline, objects: seq<Facts>, defines: map<string, Defines>)
    requires b.objects.Keys == ByStem(objects).Keys
    requires forall s :: s in ByStem(objects) ==> RecordsObject(b, s, ByStem(objects)[s], defines)
    ensures Records(b, objects, defines)
  {
  }

  lemma InternedRecord(b: Baseline, facts: map<string, Facts>, defines: map<string, Defines>,
                       geom: map<string, string>, s: string)
    requires Shared(geom, b.profiles, Geometries(facts)) && b.objects == RowsOf(facts, defines, geom) && s in facts
    ensures RecordsObject(b, s, facts[s], defines)
  {
    assert b.objects[s].geom == geom[s];
  }

  lemma GeomNamesOf(facts: map<string, Facts>, defines: map<string, Defines>, geom: map<string, string>)
    requires facts.Keys == geom.Keys
    ensures GeomNames(RowsOf(facts, defines, geom)) == geom
  {
  }

  lemma ByStemAppend(objects: seq<Facts>, last: Facts)
    ensures ByStem(objects + [last]) == ByStem(objects)[last.stem := last]
  {
    assert (objects + [last])[..|objects|] == objects;
  }

  lemma DistinctInit(init: seq<Facts>, last: Facts)
    requires DistinctStems(init + [last])
    ensures DistinctStems(init) && forall f :: f in init ==> f.stem != last.stem
  {
    var all := init + [last];
    assert forall i :: 0 <= i < |init| ==> all[i] == init[i];
    assert all[|init|] == last;
  }

  lemma {:induction false} ByStemOf(objects: seq<Facts>, f: Facts)
    requires DistinctStems(objects) && f in objects
    ensures ByStem(objects)[f.stem] == f
  {
    var init, last := objects[..|objects| - 1], objects[|objects| - 1];
    assert objects == init + [last];
    ByStemAppend(init, last);
    DistinctInit(init, last);
    if f in init {
      ByStemOf(init, f);
    }
  }

  /** Against a baseline that records the kept object of its stem, an object fails more than its
      baseline-free rules exactly when it drifted from that object. */
  lemma BlessedDriftIff(f: Facts, b: Baseline, objects: seq<Facts>, defines: map<string, Defines>, rules: Rules)
    requires Records(b, objects, defines) && f in objects
    ensures Failures(f, b, DefinesOf(defines, f.stem), rules) == BaselineFree(f, DefinesOf(defines, f.stem), rules)
       <==> var kept := ByStem(objects)[f.stem];
            HeldBy(f, RowOf(kept, DefinesOf(defines, f.stem), ""), kept.geom)
  {
    DriftIff(f, b, DefinesOf(defines, f.stem), rules);
    assert f.stem in ByStem(objects);
    var kept, row := ByStem(objects)[f.stem], b.objects[f.stem];
    assert Matching(f, b, DefinesOf(defines, f.stem)) == Some(row);
    assert HeldBy(f, row, kept.geom) <==> HeldBy(f, RowOf(kept, DefinesOf(defines, f.stem), ""), kept.geom);
  }

  /** Blessing is a fixpoint: with distinct stems the same objects then fail only by the rules that
      need no baseline, and what advises is only what never needed one. */
  lemma BlessIsFixpoint(f: Facts, b: Baseline, objects: seq<Facts>, defines: map<string, Defines>, rules: Rules)
    requires Records(b, objects, defines) && f in objects && DistinctStems(objects)
    ensures Failures(f, b, DefinesOf(defines, f.stem), rules) == BaselineFree(f, DefinesOf(defines, f.stem), rules)
    ensures Notes(f, b, DefinesOf(defines, f.stem)) == Reports(f)
  {
    ByStemOf(objects, f);
    BlessedDriftIff(f, b, objects, defines, rules);
    assert f.stem in ByStem(objects);
    assert RowNotes(f, b.objects[f.stem]) == {};
  }

  ghost predicate ArchOk(objects: seq<Facts>, b: Baseline) {
    b.arch.Some? && b.arch.value != "" ==> forall f :: f in objects ==> f.arch == b.arch.value
  }

  /** An object without failures and, in strict mode, without advisories. */
  ghost predicate Passes(f: Facts, b: Baseline, defines: Defines, rules: Rules, strict: bool) {
    Failures(f, b, defines, rules) == {} && (strict ==> Notes(f, b, defines) == {})
  }

  ghost predicate ContractHolds(objects: seq<Facts>, b: Baseline, defines: map<string, Defines>, rules: Rules,
                                roster: seq<string>, strict: bool) {
    roster == [] && AllPass(objects, b, defines, rules, strict)
  }

  ghost predicate AllPass(objects: seq<Facts>, b: Baseline, defines: map<string, Defines>, rules: Rules, strict: bool) {
    forall f :: f in objects ==> Passes(f, b, DefinesOf(defines, f.stem), rules, strict)
  }

  lemma AllPassNext(objects: seq<Facts>, i: nat, b: Baseline, defines: map<string, Defines>, rules: Rules, strict: bool)
    requires i < |objects|
    ensures AllPass(objects[..i + 1], b, defines, rules, strict) <==>
            AllPass(objects[..i], b, defines, rules, strict) &&
            Passes(objects[i], b, DefinesOf(defines, objects[i].stem), rules, strict)
  {
    assert objects[..i + 1] == objects[..i] + [objects[i]];
  }

  lemma NoFailsIff(fails: seq<Failure>, f: Facts, b: Baseline, defines: Defines, rules: Rules, strict: bool)
    requires !strict ==> Lists(fails, Failures(f, b, defines, rules))
    requires strict ==> forall x :: x in fails <==>
               x in Failures(f, b, defines, rules) || (x.Strict? && x.note in Notes(f, b, defines))
    ensures fails == [] <==> Passes(f, b, defines, rules, strict)
  {
    if fails == [] {
      if strict {
        forall n
          ensures n !in Notes(f, b, defines)
        {
          assert Strict(n) !in fails;
        }
      }
    } else {
      assert fails[0] in fails;
    }
  }

  /** After blessing, the same objects of distinct stems pass exactly when the roster is clean and no rule that
      needs no baseline fails; in strict mode also nothing that never needed one may advise. */
  lemma BlessedContractIff(b: Baseline, objects: seq<Facts>, defines: map<string, Defines>, rules: Rules,
                           roster: seq<string>, strict: bool)
    requires Records(b, objects, defines) && DistinctStems(objects)
    ensures ContractHolds(objects, b, defines, rules, roster, strict) <==>
            roster == [] && forall f :: f in objects ==>
              BaselineFree(f, DefinesOf(defines, f.stem), rules) == {} && (strict ==> Reports(f) == {})
  {
    forall f | f in objects
      ensures Passes(f, b, DefinesOf(defines, f.stem), rules, strict) <==>
              BaselineFree(f, DefinesOf(defines, f.stem), rules) == {} && (strict ==> Reports(f) == {})
    {
      BlessIsFixpoint(f, b, objects, defines, rules);
    }
  }

  /** The whole command: exit status and the baseline left behind. `roster` holds the failures of the
      source-side roster check. */
  method RunContract(objects: seq<Facts>, before: Baseline, defines: map<string, Defines>, rules: Rules,
                     roster: seq<string>, bless: bool, strict: bool)
    returns (status: nat, b: Baseline)
    ensures !ArchOk(objects, before) ==> status == 1 && b == before
    ensures ArchOk(objects, before) && bless ==>
              status == 0 && b.arch == before.arch && Records(b, objects, defines)
    ensures !bless ==> b == before
    ensures ArchOk(objects, before) && !bless ==>
              (status == 0 <==> ContractHolds(objects, b, defines, rules, roster, strict))
  {
    for i := 0 to |objects|
      invariant before.arch.Some? && before.arch.value != "" ==>
                  forall j :: 0 <= j < i ==> objects[j].arch == before.arch.value
    {
      if before.arch.Some? && before.arch.value != "" && objects[i].arch != before.arch.value {
        return 1, before;
      }
    }
    if bless {
      b := Bless(before, objects, defines);
      return 0, b;
    }
    var fails := false;
    for i := 0 to |objects|
      invariant !fails <==> AllPass(objects[..i], before, defines, rules, strict)
    {
      var f, notes := Contract(objects[i], before, DefinesOf(defines, objects[i].stem), rules, strict);
      NoFailsIff(f, objects[i], before, DefinesOf(defines, objects[i].stem), rules, strict);
      AllPassNext(objects, i, before, defines, rules, strict);
      fails := fails || f != [];
    }
    assert objects[..|objects|] == objects;
    status, b := if fails || roster != [] then 1 else 0, before;
  }

  /** Blessing and checking the same objects again. */
  method BlessThenCheck(objects: seq<Facts>, before: Baseline, defines: map<string, Defines>, rules: Rules,
                        roster: seq<string>, strict: bool) returns (status: nat)
    requires DistinctStems(objects)
    ensures status == 0 <==>
              ArchOk(objects, before) && roster == [] && forall f :: f in objects ==>
                BaselineFree(f, DefinesOf(defines, f.stem), rules) == {} && (strict ==> Reports(f) == {})
  {
    var first, b := RunContract(objects, before, defines, rules, roster, true, strict);
    if first != 0 {
      return first;
    }
    status, b := RunContract(objects, b, defines, rules, roster, false, strict);
    BlessedContractIff(b, objects, defines, rules, roster, strict);
  }
}
