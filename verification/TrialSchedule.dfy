/** The anchored trial schedule of `gemma4_h100_kernel_tuner.py`: which arms run, which
    reports are filed, and that every completed schedule passes the checks made later. */
module TrialSchedule {
  import opened Common
  import LinearMaps

  const TRIALS: nat := 4

  datatype Arm = ControlBefore | Candidate | ControlAfter
  datatype Direction = Increase | Decrease

  datatype Resource = Resource(spills: nat, stackBytes: nat, spillStores: nat, spillLoads: nat, rest: string)
  datatype Variant = Variant(name: string, reference: bool, compiled: Resource,
                             expected: map<string, Direction>, limits: map<string, real>)
  datatype Group = Group(phase: string, rung: nat, topology: string, family: string, kvLength: Option<nat>)
  datatype Profile = Profile(key: string, packet: Option<string>, group: Group, occurrences: nat)
  datatype Entry = Entry(profile: Profile, variants: seq<Variant>)

  /** Runs one benchmark command and checks its report. */
  type Runner<T> = (Entry, Variant, nat, Arm) -> Result<T>

  /** A checked report filed under the trial and arm it was scheduled for. */
  datatype Timing<T> = Timing(trial: nat, arm: Arm, body: T)

  // --- the plan -----------------------------------------------------------

  /** The source's duplicate test: the set of names is as large as the list. */
  predicate Unique(names: seq<string>) {
    |set x | x in names| == |names|
  }

  lemma AppendElements(names: seq<string>, x: string)
    ensures (set y | y in names + [x]) == (set y | y in names) + {x}
  {
  }

  lemma AppendDistinct(names: seq<string>, x: string)
    ensures Distinct(names + [x]) <==> Distinct(names) && x !in names
  {
    var all := names + [x];
    if Distinct(all) {
      assert forall i :: 0 <= i < |names| ==> all[i] == names[i] && all[i] != all[|names|];
    }
  }

  /** Comparing sizes finds every duplicate and nothing else. */
  lemma {:induction false} UniqueIffDistinct(names: seq<string>)
    ensures Unique(names) <==> Distinct(names)
    ensures |set x | x in names| <= |names|
  {
    if names != [] {
      var init, x := names[..|names| - 1], names[|names| - 1];
      assert names == init + [x];
      UniqueIffDistinct(init);
      AppendElements(init, x);
      AppendDistinct(init, x);
      var before := set y | y in init;
      assert |before + {x}| == |before| + if x in before then 0 else 1 by {
        if x in before {
          assert before + {x} == before;
        }
      }
    }
  }

  function Names(vs: seq<Variant>): seq<string> {
    seq(|vs|, i requires 0 <= i < |vs| => vs[i].name)
  }

  function Keys(entries: seq<Entry>): seq<string> {
    seq(|entries|, i requires 0 <= i < |entries| => entries[i].profile.key)
  }

  function Those(vs: seq<Variant>, reference: bool): seq<Variant> {
    if vs == [] then []
    else (if vs[0].reference == reference then [vs[0]] else []) + Those(vs[1..], reference)
  }

  /** What `variants_for_profile` admits. */
  predicate Planned(e: Entry) {
    Unique(Names(e.variants)) && |Those(e.variants, true)| == 1 && |e.variants| >= 2
  }

  /** What `load_plan` admits. */
  predicate Plan(entries: seq<Entry>) {
    entries != [] && Unique(Keys(entries)) && forall e :: e in entries ==> Planned(e)
  }

  lemma {:induction false} ThoseAre(vs: seq<Variant>, reference: bool)
    ensures forall v :: v in Those(vs, reference) <==> v in vs && v.reference == reference
    ensures |Those(vs, true)| + |Those(vs, false)| == |vs|
  {
    if vs != [] {
      ThoseAre(vs[1..], reference);
    }
  }

  /** The variants of a kind keep their order. */
  lemma {:induction false} ThoseConcat(a: seq<Variant>, b: seq<Variant>, reference: bool)
    ensures Those(a + b, reference) == Those(a, reference) + Those(b, reference)
  {
    if a == [] {
      assert a + b == b;
    } else {
      assert (a + b)[1..] == a[1..] + b;
      ThoseConcat(a[1..], b, reference);
    }
  }

  lemma HeadNameFresh(vs: seq<Variant>, w: Variant)
    requires vs != [] && Distinct(Names(vs)) && w in vs[1..]
    ensures w.name != vs[0].name && Distinct(Names(vs[1..]))
  {
    var k :| 0 <= k < |vs[1..]| && vs[1..][k] == w;
    assert Names(vs)[0] != Names(vs)[k + 1];
    assert Names(vs[1..]) == Names(vs)[1..];
  }

  lemma DistinctCons(w: Variant, rest: seq<Variant>)
    requires Distinct(Names(rest)) && forall x :: x in rest ==> x.name != w.name
    ensures Distinct(Names([w] + rest))
  {
    assert Names([w] + rest) == [w.name] + Names(rest);
  }

  lemma {:induction false} ThoseDistinct(vs: seq<Variant>, reference: bool)
    requires Distinct(Names(vs))
    ensures Distinct(Names(Those(vs, reference)))
  {
    if vs != [] {
      assert Names(vs[1..]) == Names(vs)[1..];
      ThoseDistinct(vs[1..], reference);
      ThoseAre(vs[1..], reference);
      forall w | w in Those(vs[1..], reference)
        ensures w.name != vs[0].name
      {
        HeadNameFresh(vs, w);
      }
      var rest := Those(vs[1..], reference);
      DistinctCons(vs[0], rest);
      assert Those(vs, reference) == [vs[0]] + rest || Those(vs, reference) == rest;
    }
  }

  lemma SameName(vs: seq<Variant>, v: Variant, w: Variant)
    requires Distinct(Names(vs)) && v in vs && w in vs && v.name == w.name
    ensures v == w
  {
    var i :| 0 <= i < |vs| && vs[i] == v;
    var j :| 0 <= j < |vs| && vs[j] == w;
    assert Names(vs)[i] == Names(vs)[j];
  }

  /** The one reference variant of an admitted entry. */
  function Reference(e: Entry): (v: Variant)
    requires Planned(e)
    ensures v in e.variants && v.reference
    ensures forall w :: w in e.variants && w.reference ==> w == v
  {
    ThoseAre(e.variants, true);
    var refs := Those(e.variants, true);
    assert refs == [refs[0]];
    assert forall w :: w in refs ==> w == refs[0];
    refs[0]
  }

  /** An admitted entry has a candidate, so the rotation never divides by zero. */
  lemma CandidateExists(e: Entry)
    requires Planned(e)
    ensures Those(e.variants, false) != []
  {
    ThoseAre(e.variants, false);
  }

  // --- one trial ----------------------------------------------------------

  function Rotated(e: Entry, trial: nat): seq<Variant>
    requires Planned(e)
  {
    CandidateExists(e);
    var c := Those(e.variants, false);
    c[trial % |c|..] + c[..trial % |c|]
  }

  /** Position `i` of a trial's rotation holds the candidate `trial` places further on, counted around. */
  lemma RotatedAt(e: Entry, trial: nat, i: nat)
    requires Planned(e) && i < |Those(e.variants, false)|
    ensures var c := Those(e.variants, false);
            |Rotated(e, trial)| == |c| && Rotated(e, trial)[i] == c[(trial + i) % |c|]
  {
    var c := Those(e.variants, false);
    var n, s := |c|, trial % |c|;
    AroundIs(trial, i, n);
    assert Rotated(e, trial) == c[s..] + c[..s];
  }

  lemma AroundIs(trial: nat, i: nat, n: nat)
    requires i < n
    ensures (trial + i) % n == if trial % n + i < n then trial % n + i else trial % n + i - n
  {
    var q, r := trial / n, trial % n;
    assert trial == q * n + r;
    if r + i < n {
      LessThanOne(trial + i, q, r + i, n);
    } else {
      assert (q + 1) * n == q * n + n;
      LessThanOne(trial + i, q + 1, r + i - n, n);
    }
  }

  lemma LessThanOne(x: nat, q: nat, r: nat, n: nat)
    requires x == q * n + r && r < n
    ensures x % n == r
  {
    LinearMaps.FlatUnique(x / n, x % n, q, r, n);
  }

  /** Over as many trials as there are candidates every candidate takes every position, in exactly one trial. */
  lemma RotationBalanced(e: Entry, k: nat, i: nat, t: nat)
    requires Planned(e) && k < |Those(e.variants, false)| && i < |Those(e.variants, false)|
    requires t < |Those(e.variants, false)|
    ensures var c := Those(e.variants, false);
            |Rotated(e, t)| == |c| &&
            (Rotated(e, t)[i] == c[k] <==> t == if i <= k then k - i else k + |c| - i)
  {
    var c := Those(e.variants, false);
    var n := |c|;
    RotatedAt(e, t, i);
    AroundIs(t, i, n);
    LessThanOne(t, 0, t, n);
    UniqueIffDistinct(Names(e.variants));
    ThoseDistinct(e.variants, false);
    assert forall j :: 0 <= j < n ==> Names(c)[j] == c[j].name;
  }

  function Candidates(vs: seq<Variant>): seq<(Variant, Arm)> {
    seq(|vs|, i requires 0 <= i < |vs| => (vs[i], Candidate))
  }

  function Arms(e: Entry, trial: nat): seq<(Variant, Arm)>
    requires Planned(e)
  {
    var c := Rotated(e, trial);
    [(Reference(e), ControlBefore)] + Candidates(c) + [(Reference(e), ControlAfter)]
  }

  predicate Accepted<T>(e: Entry, v: Variant, trial: nat, arm: Arm, m: Runner<T>) {
    m(e, v, trial, arm).Success?
  }

  function Taken<T>(e: Entry, v: Variant, trial: nat, arm: Arm, m: Runner<T>): Timing<T>
    requires Accepted(e, v, trial, arm, m)
  {
    Timing(trial, arm, m(e, v, trial, arm).value)
  }

  /** Both anchors of the reference, or the single run of a candidate. */
  predicate TrialAccepted<T>(e: Entry, v: Variant, trial: nat, m: Runner<T>) {
    if v.reference then Accepted(e, v, trial, ControlBefore, m) && Accepted(e, v, trial, ControlAfter, m)
    else Accepted(e, v, trial, Candidate, m)
  }

  function Trial<T>(e: Entry, v: Variant, trial: nat, m: Runner<T>): seq<Timing<T>>
    requires TrialAccepted(e, v, trial, m)
  {
    if v.reference then [Taken(e, v, trial, ControlBefore, m), Taken(e, v, trial, ControlAfter, m)]
    else [Taken(e, v, trial, Candidate, m)]
  }

  /** What a run of arms files under one name, in order. */
  function Collected<T>(e: Entry, arms: seq<(Variant, Arm)>, name: string, trial: nat, m: Runner<T>): seq<Timing<T>>
    requires forall a :: a in arms ==> Accepted(e, a.0, trial, a.1, m)
  {
    if arms == [] then []
    else
      var init, last := arms[..|arms| - 1], arms[|arms| - 1];
      Collected(e, init, name, trial, m) + if last.0.name == name then [Taken(e, last.0, trial, last.1, m)] else []
  }

  lemma {:induction false} CollectedConcat<T>(e: Entry, a: seq<(Variant, Arm)>, b: seq<(Variant, Arm)>, name: string,
                                           trial: nat, m: Runner<T>)
    requires forall x :: x in a + b ==> Accepted(e, x.0, trial, x.1, m)
    ensures Collected(e, a + b, name, trial, m)
         == Collected(e, a, name, trial, m) + Collected(e, b, name, trial, m)
  {
    if b == [] {
      assert a + b == a;
    } else {
      var n := |b| - 1;
      assert a + b == (a + b[..n]) + [b[n]];
      assert (a + b)[..|a + b| - 1] == a + b[..n];
      CollectedConcat(e, a, b[..n], name, trial, m);
    }
  }

  lemma {:induction false} CollectedNone<T>(e: Entry, arms: seq<(Variant, Arm)>, name: string, trial: nat, m: Runner<T>)
    requires forall a :: a in arms ==> Accepted(e, a.0, trial, a.1, m)
    requires forall a :: a in arms ==> a.0.name != name
    ensures Collected(e, arms, name, trial, m) == []
  {
    if arms != [] {
      CollectedNone(e, arms[..|arms| - 1], name, trial, m);
    }
  }

  lemma CollectedOnce<T>(e: Entry, arms: seq<(Variant, Arm)>, k: nat, trial: nat, m: Runner<T>)
    requires forall a :: a in arms ==> Accepted(e, a.0, trial, a.1, m)
    requires k < |arms| && forall i :: 0 <= i < |arms| && i != k ==> arms[i].0.name != arms[k].0.name
    ensures Collected(e, arms, arms[k].0.name, trial, m) == [Taken(e, arms[k].0, trial, arms[k].1, m)]
  {
    var name, before, here, after := arms[k].0.name, arms[..k], [arms[k]], arms[k + 1..];
    assert arms == before + here + after;
    CollectedConcat(e, before + here, after, name, trial, m);
    CollectedConcat(e, before, here, name, trial, m);
    CollectedNone(e, before, name, trial, m);
    CollectedNone(e, after, name, trial, m);
    assert here[..0] == [];
  }

  lemma RotationDistinct(s: seq<string>, k: nat)
    requires Distinct(s) && k <= |s|
    ensures Distinct(s[k..] + s[..k])
  {
    var r, n := s[k..] + s[..k], |s|;
    forall i, j | 0 <= i < j < n
      ensures r[i] != r[j]
    {
      var a := if i < n - k then i + k else i - (n - k);
      var b := if j < n - k then j + k else j - (n - k);
      assert r[i] == s[a] && r[j] == s[b] && a != b;
    }
  }

  lemma RotateCandidates(c: seq<Variant>, k: nat)
    requires k <= |c| && Distinct(Names(c))
    ensures Distinct(Names(c[k..] + c[..k]))
    ensures forall v :: v in c[k..] + c[..k] <==> v in c
  {
    RotationDistinct(Names(c), k);
    assert Names(c[k..] + c[..k]) == Names(c)[k..] + Names(c)[..k];
    assert c == c[..k] + c[k..];
  }

  /** Rotation keeps every candidate, exactly once. */
  lemma RotatedOnce(e: Entry, trial: nat)
    requires Planned(e)
    ensures Distinct(Names(Rotated(e, trial)))
    ensures forall v :: v in Rotated(e, trial) <==> v in e.variants && !v.reference
  {
    CandidateExists(e);
    UniqueIffDistinct(Names(e.variants));
    ThoseDistinct(e.variants, false);
    ThoseAre(e.variants, false);
    var c := Those(e.variants, false);
    RotateCandidates(c, trial % |c|);
  }

  lemma ArmsAccepted<T>(e: Entry, trial: nat, m: Runner<T>)
    requires Planned(e)
    ensures (forall a :: a in Arms(e, trial) ==> Accepted(e, a.0, trial, a.1, m))
       <==> (forall v :: v in e.variants ==> TrialAccepted(e, v, trial, m))
  {
    var c, arms := Rotated(e, trial), Arms(e, trial);
    RotatedOnce(e, trial);
    assert arms[0] == (Reference(e), ControlBefore) && arms[|c| + 1] == (Reference(e), ControlAfter);
    assert forall i :: 0 <= i < |c| ==> arms[i + 1] == (c[i], Candidate);
    if forall a :: a in arms ==> Accepted(e, a.0, trial, a.1, m) {
      forall v | v in e.variants
        ensures TrialAccepted(e, v, trial, m)
      {
        if v.reference {
          assert arms[0] in arms && arms[|c| + 1] in arms;
        } else {
          var i :| 0 <= i < |c| && c[i] == v;
          assert arms[i + 1] in arms;
        }
      }
    }
  }

  lemma ArmsSplit<T>(e: Entry, name: string, trial: nat, m: Runner<T>)
    requires Planned(e)
    requires forall a :: a in Arms(e, trial) ==> Accepted(e, a.0, trial, a.1, m)
    ensures Accepted(e, Reference(e), trial, ControlBefore, m) && Accepted(e, Reference(e), trial, ControlAfter, m)
    ensures forall a :: a in Candidates(Rotated(e, trial)) ==> Accepted(e, a.0, trial, a.1, m)
    ensures Collected(e, Arms(e, trial), name, trial, m)
         == (if Reference(e).name == name then [Taken(e, Reference(e), trial, ControlBefore, m)] else [])
            + Collected(e, Candidates(Rotated(e, trial)), name, trial, m)
            + (if Reference(e).name == name then [Taken(e, Reference(e), trial, ControlAfter, m)] else [])
  {
    var ref, middle := Reference(e), Candidates(Rotated(e, trial));
    var first, last := [(ref, ControlBefore)], [(ref, ControlAfter)];
    ArmsHold(e, trial);
    assert Arms(e, trial) == (first + middle) + last;
    CollectedConcat(e, first + middle, last, name, trial, m);
    CollectedConcat(e, first, middle, name, trial, m);
    CollectedOne(e, first[0], name, trial, m);
    CollectedOne(e, last[0], name, trial, m);
  }

  lemma ArmsHold(e: Entry, trial: nat)
    requires Planned(e)
    ensures (Reference(e), ControlBefore) in Arms(e, trial) && (Reference(e), ControlAfter) in Arms(e, trial)
    ensures forall a :: a in Candidates(Rotated(e, trial)) ==> a in Arms(e, trial)
  {
    var n := |Candidates(Rotated(e, trial))|;
    assert Arms(e, trial)[0] == (Reference(e), ControlBefore);
    assert Arms(e, trial)[n + 1] == (Reference(e), ControlAfter);
  }

  lemma CollectedOne<T>(e: Entry, a: (Variant, Arm), name: string, trial: nat, m: Runner<T>)
    requires Accepted(e, a.0, trial, a.1, m)
    ensures Collected(e, [a], name, trial, m) == if a.0.name == name then [Taken(e, a.0, trial, a.1, m)] else []
  {
    assert [a][..0] == [];
  }

  /** The candidate arms hold nothing of the reference and one record of each candidate. */
  lemma CandidatesGive<T>(e: Entry, v: Variant, trial: nat, m: Runner<T>)
    requires Planned(e) && v in e.variants
    requires forall a :: a in Candidates(Rotated(e, trial)) ==> Accepted(e, a.0, trial, a.1, m)
    ensures !v.reference ==> Accepted(e, v, trial, Candidate, m)
    ensures Collected(e, Candidates(Rotated(e, trial)), v.name, trial, m)
         == if v.reference then [] else [Taken(e, v, trial, Candidate, m)]
  {
    RotatedOnce(e, trial);
    UniqueIffDistinct(Names(e.variants));
    var c := Rotated(e, trial);
    var arms := Candidates(c);
    if v.reference {
      forall a | a in arms
        ensures a.0.name != v.name
      {
        assert a.0 in c;
        if a.0.name == v.name {
          SameName(e.variants, a.0, v);
        }
      }
      CollectedNone(e, arms, v.name, trial, m);
    } else {
      var k :| 0 <= k < |c| && c[k] == v;
      assert arms[k] in arms;
      forall i | 0 <= i < |arms| && i != k
        ensures arms[i].0.name != arms[k].0.name
      {
        assert Names(c)[i] != Names(c)[k];
      }
      CollectedOnce(e, arms, k, trial, m);
    }
  }

  /** The arms of one trial give each variant its own records and no others. */
  lemma ArmsGiveTrial<T>(e: Entry, v: Variant, trial: nat, m: Runner<T>)
    requires Planned(e) && v in e.variants
    requires forall a :: a in Arms(e, trial) ==> Accepted(e, a.0, trial, a.1, m)
    ensures TrialAccepted(e, v, trial, m)
    ensures Collected(e, Arms(e, trial), v.name, trial, m) == Trial(e, v, trial, m)
  {
    ArmsSplit(e, v.name, trial, m);
    CandidatesGive(e, v, trial, m);
    UniqueIffDistinct(Names(e.variants));
    if !v.reference && Reference(e).name == v.name {
      SameName(e.variants, Reference(e), v);
    }
  }

  type Timings<T> = map<(string, string), seq<Timing<T>>>

  function Filed<T>(t: Timings<T>, key: string, name: string): seq<Timing<T>> {
    if (key, name) in t then t[(key, name)] else []
  }

  /** `current` is `start` with the records of these arms filed. */
  ghost predicate FiledUpTo<T>(current: Timings<T>, start: Timings<T>, e: Entry, arms: seq<(Variant, Arm)>,
                               trial: nat, m: Runner<T>)
    requires forall a :: a in arms ==> Accepted(e, a.0, trial, a.1, m)
  {
    && (forall n :: Filed(current, e.profile.key, n)
                 == Filed(start, e.profile.key, n) + Collected(e, arms, n, trial, m))
    && (forall k, n :: k != e.profile.key ==> Filed(current, k, n) == Filed(start, k, n))
  }

  lemma FileOne<T>(current: Timings<T>, start: Timings<T>, e: Entry, arms: seq<(Variant, Arm)>, trial: nat,
                   m: Runner<T>, a: (Variant, Arm))
    requires forall x :: x in arms ==> Accepted(e, x.0, trial, x.1, m)
    requires Accepted(e, a.0, trial, a.1, m) && FiledUpTo(current, start, e, arms, trial, m)
    ensures FiledUpTo(current[(e.profile.key, a.0.name) := Filed(current, e.profile.key, a.0.name)
                                                           + [Taken(e, a.0, trial, a.1, m)]],
                      start, e, arms + [a], trial, m)
  {
    assert (arms + [a])[..|arms|] == arms;
    var key := (e.profile.key, a.0.name);
    var next := current[key := Filed(current, key.0, key.1) + [Taken(e, a.0, trial, a.1, m)]];
    forall n
      ensures Filed(next, key.0, n) == Filed(start, key.0, n) + Collected(e, arms + [a], n, trial, m)
    {
      assert Filed(current, key.0, n) == Filed(start, key.0, n) + Collected(e, arms, n, trial, m);
    }
    forall k, n | k != key.0
      ensures Filed(next, k, n) == Filed(start, k, n)
    {
      assert Filed(current, k, n) == Filed(start, k, n);
    }
  }

  /** One profile's arms of one trial. */
  method RunTrial<T>(timings: Timings<T>, e: Entry, trial: nat, m: Runner<T>) returns (r: Result<Timings<T>>)
    requires Planned(e)
    ensures r.Success? <==> forall v :: v in e.variants ==> TrialAccepted(e, v, trial, m)
    ensures r.Success? ==> forall v :: v in e.variants ==>
              Filed(r.value, e.profile.key, v.name) == Filed(timings, e.profile.key, v.name) + Trial(e, v, trial, m)
    ensures r.Success? ==> forall k, n :: k != e.profile.key ==> Filed(r.value, k, n) == Filed(timings, k, n)
  {
    ArmsAccepted(e, trial, m);
    r := RunArms(timings, e, Arms(e, trial), trial, m);
    if r.Success? {
      TrialFiled(r.value, timings, e, trial, m);
    }
  }

  /** One run after the other, each filed under its variant; the first that is not accepted ends the trial. */
  method RunArms<T>(timings: Timings<T>, e: Entry, arms: seq<(Variant, Arm)>, trial: nat, m: Runner<T>)
    returns (r: Result<Timings<T>>)
    ensures r.Success? <==> forall a :: a in arms ==> Accepted(e, a.0, trial, a.1, m)
    ensures r.Success? ==> FiledUpTo(r.value, timings, e, arms, trial, m)
  {
    var current := timings;
    for i := 0 to |arms|
      invariant forall a :: a in arms[..i] ==> Accepted(e, a.0, trial, a.1, m)
      invariant FiledUpTo(current, timings, e, arms[..i], trial, m)
    {
      var (variant, arm) := arms[i];
      var checked := m(e, variant, trial, arm);
      if checked.Failure? {
        assert arms[i] in arms && !Accepted(e, variant, trial, arm, m);
        return Failure(checked.error);
      }
      FileOne(current, timings, e, arms[..i], trial, m, arms[i]);
      assert arms[..i + 1] == arms[..i] + [arms[i]];
      var key := (e.profile.key, variant.name);
      current := current[key := Filed(current, key.0, key.1) + [Timing(trial, arm, checked.value)]];
    }
    assert arms[..|arms|] == arms;
    return Success(current);
  }

  lemma TrialFiled<T>(current: Timings<T>, start: Timings<T>, e: Entry, trial: nat, m: Runner<T>)
    requires Planned(e) && forall a :: a in Arms(e, trial) ==> Accepted(e, a.0, trial, a.1, m)
    requires FiledUpTo(current, start, e, Arms(e, trial), trial, m)
    ensures forall v :: v in e.variants ==>
              TrialAccepted(e, v, trial, m) &&
              Filed(current, e.profile.key, v.name) == Filed(start, e.profile.key, v.name) + Trial(e, v, trial, m)
  {
    forall v | v in e.variants
      ensures TrialAccepted(e, v, trial, m)
      ensures Filed(current, e.profile.key, v.name) == Filed(start, e.profile.key, v.name) + Trial(e, v, trial, m)
    {
      ArmsGiveTrial(e, v, trial, m);
    }
  }

  // --- all trials ---------------------------------------------------------

  predicate AllAccepted<T>(e: Entry, v: Variant, n: nat, m: Runner<T>) {
    forall t :: 0 <= t < n ==> TrialAccepted(e, v, t, m)
  }

  function AllTrials<T>(e: Entry, v: Variant, n: nat, m: Runner<T>): seq<Timing<T>>
    requires AllAccepted(e, v, n, m)
  {
    if n == 0 then [] else AllTrials(e, v, n - 1, m) + Trial(e, v, n - 1, m)
  }

  ghost predicate Holds<T>(timings: Timings<T>, e: Entry, n: nat, m: Runner<T>) {
    forall v :: v in e.variants ==>
      AllAccepted(e, v, n, m) && Filed(timings, e.profile.key, v.name) == AllTrials(e, v, n, m)
  }

  lemma HoldsNext<T>(before: Timings<T>, after: Timings<T>, e: Entry, n: nat, m: Runner<T>)
    requires Holds(before, e, n, m)
    requires forall v :: v in e.variants ==> TrialAccepted(e, v, n, m)
    requires forall v :: v in e.variants ==>
               Filed(after, e.profile.key, v.name) == Filed(before, e.profile.key, v.name) + Trial(e, v, n, m)
    ensures Holds(after, e, n + 1, m)
  {
    forall v | v in e.variants
      ensures AllAccepted(e, v, n + 1, m) && Filed(after, e.profile.key, v.name) == AllTrials(e, v, n + 1, m)
    {
      assert AllAccepted(e, v, n, m) && TrialAccepted(e, v, n, m);
    }
  }

  /** The whole benchmark: it completes exactly when every scheduled report is accepted, and then
      every variant holds its own records, trial by trial. */
  method BenchmarkAll<T>(entries: seq<Entry>, m: Runner<T>) returns (r: Result<Timings<T>>)
    requires Plan(entries)
    ensures r.Success? <==>
              forall e, v :: e in entries && v in e.variants ==> AllAccepted(e, v, TRIALS, m)
    ensures r.Success? ==> forall e :: e in entries ==> Holds(r.value, e, TRIALS, m)
  {
    UniqueIffDistinct(Keys(entries));
    var timings: Timings<T> := map[];
    for trial := 0 to TRIALS
      invariant forall i :: 0 <= i < |entries| ==> Holds(timings, entries[i], trial, m)
    {
      for i := 0 to |entries|
        invariant forall j :: 0 <= j < i ==> Holds(timings, entries[j], trial + 1, m)
        invariant forall j :: i <= j < |entries| ==> Holds(timings, entries[j], trial, m)
      {
        var next := RunTrial(timings, entries[i], trial, m);
        if next.Failure? {
          var v :| v in entries[i].variants && !TrialAccepted(entries[i], v, trial, m);
          assert entries[i] in entries && !AllAccepted(entries[i], v, TRIALS, m);
          return Failure(next.error);
        }
        HoldsNext(timings, next.value, entries[i], trial, m);
        forall j | 0 <= j < |entries| && j != i
          ensures Holds(next.value, entries[j], if j < i then trial + 1 else trial, m)
        {
          assert Keys(entries)[j] != Keys(entries)[i];
        }
        timings := next.value;
      }
    }
    return Success(timings);
  }

  // --- the later checks ---------------------------------------------------

  function Pick<T>(records: seq<Timing<T>>, trial: nat, arm: Arm): seq<Timing<T>> {
    if records == [] then []
    else
      var last := records[|records| - 1];
      Pick(records[..|records| - 1], trial, arm) + if last.trial == trial && last.arm == arm then [last] else []
  }

  lemma {:induction false} PickConcat<T>(a: seq<Timing<T>>, b: seq<Timing<T>>, trial: nat, arm: Arm)
    ensures Pick(a + b, trial, arm) == Pick(a, trial, arm) + Pick(b, trial, arm)
  {
    if b == [] {
      assert a + b == a;
    } else {
      assert (a + b)[..|a + b| - 1] == a + b[..|b| - 1];
      PickConcat(a, b[..|b| - 1], trial, arm);
    }
  }

  predicate AnchorsOk<T>(records: seq<Timing<T>>, trial: nat) {
    |Pick(records, trial, ControlBefore)| == 1 && |Pick(records, trial, ControlAfter)| == 1
  }

  predicate ReferenceOk<T>(records: seq<Timing<T>>) {
    |records| == 2 * TRIALS && forall t :: 0 <= t < TRIALS ==> AnchorsOk(records, t)
  }

  type Anchors<T> = (Timing<T>, Timing<T>)

  function AnchorPairs<T>(records: seq<Timing<T>>): seq<Anchors<T>>
    requires ReferenceOk(records)
  {
    seq(TRIALS, t requires 0 <= t < TRIALS =>
      assert AnchorsOk(records, t);
      (Pick(records, t, ControlBefore)[0], Pick(records, t, ControlAfter)[0]))
  }

  method ReferenceTrials<T>(records: seq<Timing<T>>) returns (r: Result<seq<Anchors<T>>>)
    ensures r.Success? <==> ReferenceOk(records)
    ensures r.Success? ==> r.value == AnchorPairs(records)
  {
    if |records| != 2 * TRIALS {
      return Failure("missing control anchors");
    }
    var pairs: seq<Anchors<T>> := [];
    for trial := 0 to TRIALS
      invariant |pairs| == trial
      invariant forall t :: 0 <= t < trial ==> AnchorsOk(records, t)
      invariant forall t :: 0 <= t < trial && AnchorsOk(records, t) ==>
                  pairs[t] == (Pick(records, t, ControlBefore)[0], Pick(records, t, ControlAfter)[0])
    {
      var before, after := Pick(records, trial, ControlBefore), Pick(records, trial, ControlAfter);
      if |before| != 1 || |after| != 1 {
        assert !AnchorsOk(records, trial);
        return Failure("invalid control anchors");
      }
      pairs := pairs + [(before[0], after[0])];
    }
    assert pairs == AnchorPairs(records);
    return Success(pairs);
  }

  predicate CandidateOk<T>(records: seq<Timing<T>>) {
    |records| == TRIALS && forall i :: 0 <= i < |records| ==> records[i].trial == i && records[i].arm == Candidate
  }

  lemma {:induction false} CandidateHistory<T>(e: Entry, v: Variant, n: nat, m: Runner<T>)
    requires AllAccepted(e, v, n, m) && !v.reference
    ensures |AllTrials(e, v, n, m)| == n
    ensures forall i :: 0 <= i < n ==> TrialAccepted(e, v, i, m)
    ensures forall i :: 0 <= i < n && TrialAccepted(e, v, i, m) ==>
              AllTrials(e, v, n, m)[i] == Taken(e, v, i, Candidate, m)
  {
    if n > 0 {
      assert AllAccepted(e, v, n - 1, m);
      CandidateHistory(e, v, n - 1, m);
    }
  }

  lemma PickPair<T>(a: Timing<T>, b: Timing<T>, trial: nat, arm: Arm)
    requires a.arm == ControlBefore && b.arm == ControlAfter && a.trial == b.trial && arm != Candidate
    ensures Pick([a, b], trial, arm) ==
            if trial != a.trial then [] else if arm == ControlBefore then [a] else [b]
  {
    assert [a][..0] == [];
    assert Pick([a], trial, arm) == if a.trial == trial && a.arm == arm then [a] else [];
    assert [a, b][..1] == [a] && [a, b][1] == b;
  }

  lemma {:induction false} ReferenceCount<T>(e: Entry, v: Variant, n: nat, m: Runner<T>)
    requires AllAccepted(e, v, n, m) && v.reference
    ensures |AllTrials(e, v, n, m)| == 2 * n
  {
    if n > 0 {
      ReferenceCount(e, v, n - 1, m);
      assert TrialAccepted(e, v, n - 1, m);
    }
  }

  lemma TrialPick<T>(e: Entry, v: Variant, n: nat, m: Runner<T>, t: nat, arm: Arm)
    requires TrialAccepted(e, v, n, m) && v.reference && arm != Candidate
    ensures Accepted(e, v, n, arm, m)
    ensures Pick(Trial(e, v, n, m), t, arm) == if t == n then [Taken(e, v, n, arm, m)] else []
  {
    var pair := Trial(e, v, n, m);
    PickPair(pair[0], pair[1], t, arm);
    assert pair == [pair[0], pair[1]];
  }

  lemma PickLast<T>(e: Entry, v: Variant, n: nat, m: Runner<T>, t: nat, arm: Arm)
    requires n > 0 && AllAccepted(e, v, n, m) && TrialAccepted(e, v, n - 1, m) && v.reference && arm != Candidate
    ensures AllAccepted(e, v, n - 1, m) && Accepted(e, v, n - 1, arm, m)
    ensures Pick(AllTrials(e, v, n, m), t, arm)
         == Pick(AllTrials(e, v, n - 1, m), t, arm) + if t == n - 1 then [Taken(e, v, n - 1, arm, m)] else []
  {
    TrialPick(e, v, n - 1, m, t, arm);
    PickConcat(AllTrials(e, v, n - 1, m), Trial(e, v, n - 1, m), t, arm);
  }

  lemma {:induction false} NothingLater<T>(e: Entry, v: Variant, n: nat, m: Runner<T>, t: nat, arm: Arm)
    requires AllAccepted(e, v, n, m) && v.reference && arm != Candidate && t >= n
    ensures Pick(AllTrials(e, v, n, m), t, arm) == []
  {
    if n > 0 {
      assert TrialAccepted(e, v, n - 1, m);
      PickLast(e, v, n, m, t, arm);
      NothingLater(e, v, n - 1, m, t, arm);
    }
  }

  /** A reference's history holds each trial's two anchors once, and nothing of later trials. */
  lemma {:induction false} ReferenceHistory<T>(e: Entry, v: Variant, n: nat, m: Runner<T>, t: nat, arm: Arm)
    requires AllAccepted(e, v, n, m) && v.reference && arm != Candidate
    ensures t < n ==> Accepted(e, v, t, arm, m)
    ensures Pick(AllTrials(e, v, n, m), t, arm) == if t < n then [Taken(e, v, t, arm, m)] else []
  {
    if t >= n {
      NothingLater(e, v, n, m, t, arm);
    } else {
      assert TrialAccepted(e, v, n - 1, m);
      PickLast(e, v, n, m, t, arm);
      if t == n - 1 {
        NothingLater(e, v, n - 1, m, t, arm);
      } else {
        ReferenceHistory(e, v, n - 1, m, t, arm);
      }
    }
  }

  /** A reference's records in order: of each trial the anchor before and the anchor after. */
  lemma {:induction false} ReferenceOrder<T>(e: Entry, v: Variant, n: nat, m: Runner<T>)
    requires AllAccepted(e, v, n, m) && v.reference
    ensures |AllTrials(e, v, n, m)| == 2 * n
    ensures forall t :: 0 <= t < n ==> TrialAccepted(e, v, t, m)
    ensures forall t :: 0 <= t < n && TrialAccepted(e, v, t, m) ==>
              && AllTrials(e, v, n, m)[2 * t] == Taken(e, v, t, ControlBefore, m)
              && AllTrials(e, v, n, m)[2 * t + 1] == Taken(e, v, t, ControlAfter, m)
  {
    if n > 0 {
      assert AllAccepted(e, v, n - 1, m) && TrialAccepted(e, v, n - 1, m);
      ReferenceOrder(e, v, n - 1, m);
    }
  }

  lemma {:induction false} PickIs<T>(records: seq<Timing<T>>, trial: nat, arm: Arm)
    ensures forall x :: x in Pick(records, trial, arm) <==> x in records && x.trial == trial && x.arm == arm
  {
    if records != [] {
      var init, last := records[..|records| - 1], records[|records| - 1];
      assert records == init + [last];
      PickIs(init, trial, arm);
    }
  }

  predicate RecordsOk<T>(v: Variant, records: seq<Timing<T>>) {
    if v.reference then ReferenceOk(records) else CandidateOk(records)
  }

  ghost predicate ScheduleOk<T>(timings: Timings<T>, e: Entry) {
    forall v :: v in e.variants ==> RecordsOk(v, Filed(timings, e.profile.key, v.name))
  }

  /** Whatever the benchmark completes passes every schedule check made when winners are chosen. */
  lemma CompletedSchedulePasses<T>(timings: Timings<T>, e: Entry, m: Runner<T>)
    requires Holds(timings, e, TRIALS, m)
    ensures ScheduleOk(timings, e)
  {
    forall v | v in e.variants
      ensures RecordsOk(v, Filed(timings, e.profile.key, v.name))
    {
      if v.reference {
        ReferenceCount(e, v, TRIALS, m);
        forall t: nat | t < TRIALS
          ensures AnchorsOk(Filed(timings, e.profile.key, v.name), t)
        {
          ReferenceHistory(e, v, TRIALS, m, t, ControlBefore);
          ReferenceHistory(e, v, TRIALS, m, t, ControlAfter);
        }
      } else {
        CandidateHistory(e, v, TRIALS, m);
      }
    }
  }
}
