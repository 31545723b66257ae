/**
  `gemma4_h100_kernel_tuner.py`, `verify_all`: before any timing every variant is verified on every seed, and the
  variants of a profile must have verified the same input against the same reference.
 */
module KernelVerify {
  import opened Common
  import opened TrialSchedule

  const SEEDS: nat := 5

  /** What a verification command reported. */
  datatype Evidence = Evidence(profileKey: string, packet: Option<string>, variant: string, compiled: Resource,
                               seed: nat, correct: bool, finite: bool,
                               input: string, reference: string, output: string)

  /** Runs the verification of a profile's variant on a seed. */
  type Verifier = (string, string, nat) -> Evidence

  /** What was verified: the digests of the input and of the reference. */
  datatype Identity = Identity(input: string, reference: string)

  predicate IsDigest(s: string) {
    |s| == 64 && forall i :: 0 <= i < |s| ==> '0' <= s[i] <= '9' || 'a' <= s[i] <= 'f'
  }

  predicate Valid(r: Evidence, p: Profile, v: Variant, seed: nat) {
    && r.profileKey == p.key && r.variant == v.name && r.compiled == v.compiled
    && (p.packet.Some? ==> r.packet == p.packet)
    && r.seed == seed && r.correct && r.finite
    && IsDigest(r.input) && IsDigest(r.reference) && IsDigest(r.output)
  }

  predicate Verified(e: Entry, v: Variant, seed: nat, run: Verifier) {
    Valid(run(e.profile.key, v.name, seed), e.profile, v, seed)
  }

  function IdentityOf(e: Entry, v: Variant, seed: nat, run: Verifier): Identity {
    var r := run(e.profile.key, v.name, seed);
    Identity(r.input, r.reference)
  }

  /** Every variant verified on every seed, and on each seed the same thing. */
  ghost predicate EntryVerified(e: Entry, run: Verifier) {
    && (forall v, seed: nat :: v in e.variants && seed < SEEDS ==> Verified(e, v, seed, run))
    && forall seed: nat :: seed < SEEDS ==> Agree(e, seed, run)
  }

  ghost predicate Agree(e: Entry, seed: nat, run: Verifier) {
    forall v, w :: v in e.variants && w in e.variants ==> IdentityOf(e, v, seed, run) == IdentityOf(e, w, seed, run)
  }

  // --- what is recorded ---------------------------------------------------

  type Slot = (string, nat)

  /** By profile and seed, what each variant verified. */
  type Identities = map<Slot, map<string, Identity>>

  function Under(ids: Identities, slot: Slot): map<string, Identity> {
    if slot in ids then ids[slot] else map[]
  }

  /** What the first `n` variants verified on a seed. */
  function Seen(e: Entry, n: nat, seed: nat, run: Verifier): map<string, Identity>
    requires n <= |e.variants|
  {
    if n == 0 then map[]
    else Seen(e, n - 1, seed, run)[e.variants[n - 1].name := IdentityOf(e, e.variants[n - 1], seed, run)]
  }

  /** The first `n` variants are recorded on every seed, and the next one on the first `s`. */
  ghost predicate OwnRecorded(ids: Identities, e: Entry, n: nat, s: nat, run: Verifier)
    requires n < |e.variants| || (n == |e.variants| && s == 0)
  {
    forall seed: nat :: seed < SEEDS ==>
      Under(ids, (e.profile.key, seed)) == Seen(e, if seed < s then n + 1 else n, seed, run)
  }

  /** Other profiles are recorded as before, and this one on no other seeds. */
  ghost predicate OthersKept(ids: Identities, start: Identities, key: string) {
    && (forall slot: Slot :: slot.0 != key ==>
          (slot in ids <==> slot in start) && Under(ids, slot) == Under(start, slot))
    && (forall slot: Slot :: slot in ids && slot.0 == key ==> slot.1 < SEEDS)
  }

  ghost predicate RecordedUpTo(ids: Identities, start: Identities, e: Entry, n: nat, s: nat, run: Verifier)
    requires n < |e.variants| || (n == |e.variants| && s == 0)
  {
    OwnRecorded(ids, e, n, s, run) && OthersKept(ids, start, e.profile.key)
  }

  lemma RecordOwn(ids: Identities, e: Entry, n: nat, s: nat, run: Verifier, seen: map<string, Identity>)
    requires n < |e.variants| && s < SEEDS && OwnRecorded(ids, e, n, s, run) && seen == Seen(e, n + 1, s, run)
    ensures OwnRecorded(ids[(e.profile.key, s) := seen], e, n, s + 1, run)
  {
  }

  lemma KeepOthers(ids: Identities, start: Identities, key: string, s: nat, seen: map<string, Identity>)
    requires s < SEEDS && OthersKept(ids, start, key)
    ensures OthersKept(ids[(key, s) := seen], start, key)
  {
  }

  lemma RecordOne(ids: Identities, start: Identities, e: Entry, n: nat, s: nat, run: Verifier)
    requires n < |e.variants| && s < SEEDS && RecordedUpTo(ids, start, e, n, s, run)
    ensures var slot: Slot := (e.profile.key, s);
            var v := e.variants[n];
            RecordedUpTo(ids[slot := Under(ids, slot)[v.name := IdentityOf(e, v, s, run)]], start, e, n, s + 1, run)
  {
    var seen := Under(ids, (e.profile.key, s))[e.variants[n].name := IdentityOf(e, e.variants[n], s, run)];
    RecordOwn(ids, e, n, s, run, seen);
    KeepOthers(ids, start, e.profile.key, s, seen);
  }

  lemma RecordAll(ids: Identities, start: Identities, e: Entry, n: nat, run: Verifier)
    requires n < |e.variants| && RecordedUpTo(ids, start, e, n, SEEDS, run)
    ensures RecordedUpTo(ids, start, e, n + 1, 0, run)
  {
  }

  /** One variant on every seed in turn. */
  method VerifyVariant(e: Entry, n: nat, run: Verifier, before: Identities, ghost start: Identities)
    returns (ids: Option<Identities>)
    requires n < |e.variants| && RecordedUpTo(before, start, e, n, 0, run)
    ensures ids.Some? <==> forall seed: nat :: seed < SEEDS ==> Verified(e, e.variants[n], seed, run)
    ensures ids.Some? ==> RecordedUpTo(ids.value, start, e, n + 1, 0, run)
  {
    var v, current := e.variants[n], before;
    for seed := 0 to SEEDS
      invariant forall k: nat :: k < seed ==> Verified(e, v, k, run)
      invariant RecordedUpTo(current, start, e, n, seed, run)
    {
      var record := run(e.profile.key, v.name, seed);
      if !Valid(record, e.profile, v, seed) {
        assert !Verified(e, v, seed, run);
        return None;
      }
      RecordOne(current, start, e, n, seed, run);
      var slot: Slot := (e.profile.key, seed);
      current := current[slot := Under(current, slot)[v.name := Identity(record.input, record.reference)]];
    }
    RecordAll(current, start, e, n, run);
    ids := Some(current);
  }

  ghost predicate VariantsVerified(e: Entry, n: nat, run: Verifier)
    requires n <= |e.variants|
  {
    forall k, seed: nat :: 0 <= k < n && seed < SEEDS ==> Verified(e, e.variants[k], seed, run)
  }

  method VerifyEntry(e: Entry, run: Verifier, start: Identities) returns (ids: Option<Identities>)
    requires forall slot: Slot :: slot in start ==> slot.0 != e.profile.key
    ensures ids.Some? <==> VariantsVerified(e, |e.variants|, run)
    ensures ids.Some? ==> RecordedUpTo(ids.value, start, e, |e.variants|, 0, run)
  {
    var current := start;
    for n := 0 to |e.variants|
      invariant VariantsVerified(e, n, run) && RecordedUpTo(current, start, e, n, 0, run)
    {
      var next := VerifyVariant(e, n, run, current, start);
      if next.None? {
        return None;
      }
      current := next.value;
    }
    ids := Some(current);
  }

  // --- all entries --------------------------------------------------------

  /** The first `n` entries are recorded in full, and nothing else. */
  ghost predicate AllRecorded(ids: Identities, entries: seq<Entry>, n: nat, run: Verifier)
    requires n <= |entries|
  {
    && (forall i, seed: nat :: 0 <= i < n && seed < SEEDS ==>
          Under(ids, (entries[i].profile.key, seed)) == Seen(entries[i], |entries[i].variants|, seed, run))
    && forall slot: Slot :: slot in ids ==> slot.1 < SEEDS && exists i :: 0 <= i < n && slot.0 == entries[i].profile.key
  }

  lemma KeysDiffer(entries: seq<Entry>, i: nat, j: nat)
    requires Plan(entries) && i < j < |entries|
    ensures entries[i].profile.key != entries[j].profile.key
  {
    UniqueIffDistinct(Keys(entries));
    assert Keys(entries)[i] == entries[i].profile.key && Keys(entries)[j] == entries[j].profile.key;
  }

  lemma RecordEntry(ids: Identities, next: Identities, entries: seq<Entry>, n: nat, run: Verifier)
    requires Plan(entries) && n < |entries| && AllRecorded(ids, entries, n, run)
    requires RecordedUpTo(next, ids, entries[n], |entries[n].variants|, 0, run)
    ensures AllRecorded(next, entries, n + 1, run)
  {
    forall i, seed: nat | 0 <= i < n + 1 && seed < SEEDS
      ensures Under(next, (entries[i].profile.key, seed)) == Seen(entries[i], |entries[i].variants|, seed, run)
    {
      if i < n {
        KeysDiffer(entries, i, n);
      }
    }
    forall slot: Slot | slot in next
      ensures slot.1 < SEEDS && exists i :: 0 <= i < n + 1 && slot.0 == entries[i].profile.key
    {
      if slot.0 != entries[n].profile.key {
        assert slot in ids;
      }
    }
  }

  lemma FreshKey(ids: Identities, entries: seq<Entry>, n: nat, run: Verifier)
    requires Plan(entries) && n < |entries| && AllRecorded(ids, entries, n, run)
    ensures forall slot: Slot :: slot in ids ==> slot.0 != entries[n].profile.key
  {
    forall slot: Slot | slot in ids
      ensures slot.0 != entries[n].profile.key
    {
      var i :| 0 <= i < n && slot.0 == entries[i].profile.key;
      KeysDiffer(entries, i, n);
    }
  }

  // --- agreement ----------------------------------------------------------

  /** The values form a set of one. */
  predicate OneValue(m: map<string, Identity>) { |m.Values| == 1 }

  lemma {:induction false} SeenValues(e: Entry, n: nat, seed: nat, run: Verifier)
    requires n <= |e.variants| && Unique(Names(e.variants))
    ensures forall x :: x in Seen(e, n, seed, run).Values <==>
                        exists k :: 0 <= k < n && x == IdentityOf(e, e.variants[k], seed, run)
  {
    if n > 0 {
      SeenValues(e, n - 1, seed, run);
      var before, v := Seen(e, n - 1, seed, run), e.variants[n - 1];
      NameIsNew(e, n - 1, seed, run);
      AddedValue(before, v.name, IdentityOf(e, v, seed, run));
    }
  }

  lemma AddedValue(m: map<string, Identity>, name: string, x: Identity)
    requires name !in m
    ensures m[name := x].Values == m.Values + {x}
  {
    var next := m[name := x];
    assert next[name] == x;
    forall y | y in m.Values
      ensures y in next.Values
    {
      var k :| k in m && m[k] == y;
      assert next[k] == y;
    }
  }

  lemma {:induction false} NameIsNew(e: Entry, n: nat, seed: nat, run: Verifier)
    requires n < |e.variants| && Unique(Names(e.variants))
    ensures e.variants[n].name !in Seen(e, n, seed, run)
  {
    UniqueIffDistinct(Names(e.variants));
    SeenNames(e, n, seed, run);
    assert forall k :: 0 <= k <= n ==> Names(e.variants)[k] == e.variants[k].name;
  }

  lemma {:induction false} SeenNames(e: Entry, n: nat, seed: nat, run: Verifier)
    requires n <= |e.variants|
    ensures forall name :: name in Seen(e, n, seed, run) ==> exists k :: 0 <= k < n && name == e.variants[k].name
  {
    if n > 0 {
      SeenNames(e, n - 1, seed, run);
    }
  }

  lemma OneValueIff<T>(s: set<T>, x: T)
    requires x in s
    ensures |s| == 1 <==> forall y :: y in s ==> y == x
  {
    if |s| == 1 {
      assert |s - {x}| == 0;
    }
    if forall y :: y in s ==> y == x {
      assert s == {x};
    }
  }

  lemma AgreeIff(e: Entry, seed: nat, run: Verifier)
    requires Planned(e)
    ensures OneValue(Seen(e, |e.variants|, seed, run)) <==> Agree(e, seed, run)
  {
    var values := Seen(e, |e.variants|, seed, run).Values;
    SeenValues(e, |e.variants|, seed, run);
    var first := IdentityOf(e, e.variants[0], seed, run);
    OneValueIff(values, first);
    if Agree(e, seed, run) {
      forall y | y in values
        ensures y == first
      {
        var k :| 0 <= k < |e.variants| && y == IdentityOf(e, e.variants[k], seed, run);
        assert e.variants[k] in e.variants && e.variants[0] in e.variants;
      }
    }
    if OneValue(Seen(e, |e.variants|, seed, run)) {
      forall v | v in e.variants
        ensures IdentityOf(e, v, seed, run) == first
      {
        var k :| 0 <= k < |e.variants| && e.variants[k] == v;
        assert IdentityOf(e, v, seed, run) in values;
      }
    }
  }

  // --- the whole verification ---------------------------------------------

  /** Every slot of the record holds one value. */
  ghost predicate OneEach(ids: Identities) {
    forall slot :: slot in ids ==> OneValue(ids[slot])
  }

  lemma OneEachIff(ids: Identities, entries: seq<Entry>, run: Verifier)
    requires Plan(entries) && AllRecorded(ids, entries, |entries|, run)
    ensures OneEach(ids) <==> forall e, seed: nat :: e in entries && seed < SEEDS ==> Agree(e, seed, run)
  {
    forall i, seed: nat | 0 <= i < |entries| && seed < SEEDS
      ensures (entries[i].profile.key, seed) in ids
      ensures OneValue(ids[(entries[i].profile.key, seed)]) <==> Agree(entries[i], seed, run)
    {
      SlotFilled(ids, entries, i, seed, run);
    }
    if OneEach(ids) {
      forall e, seed: nat | e in entries && seed < SEEDS
        ensures Agree(e, seed, run)
      {
        var i :| 0 <= i < |entries| && entries[i] == e;
        assert OneValue(ids[(entries[i].profile.key, seed)]);
      }
    } else {
      var slot: Slot :| slot in ids && !OneValue(ids[slot]);
      var i :| 0 <= i < |entries| && slot.0 == entries[i].profile.key;
      assert slot == (entries[i].profile.key, slot.1) && entries[i] in entries;
    }
  }

  lemma SlotFilled(ids: Identities, entries: seq<Entry>, i: nat, seed: nat, run: Verifier)
    requires Plan(entries) && AllRecorded(ids, entries, |entries|, run) && i < |entries| && seed < SEEDS
    ensures (entries[i].profile.key, seed) in ids
    ensures OneValue(ids[(entries[i].profile.key, seed)]) <==> Agree(entries[i], seed, run)
  {
    var e, slot: Slot := entries[i], (entries[i].profile.key, seed);
    assert Planned(e);
    assert Under(ids, slot) == Seen(e, |e.variants|, seed, run);
    assert e.variants[|e.variants| - 1].name in Seen(e, |e.variants|, seed, run);
    AgreeIff(e, seed, run);
  }

  method CheckIdentities(ids: Identities) returns (ok: bool)
    ensures ok <==> OneEach(ids)
  {
    var rest := ids.Keys;
    while rest != {}
      invariant rest <= ids.Keys
      invariant forall slot :: slot in ids && slot !in rest ==> OneValue(ids[slot])
      decreases |rest|
    {
      var slot :| slot in rest;
      if !OneValue(ids[slot]) {
        return false;
      }
      rest := rest - {slot};
    }
    ok := true;
  }

  /** Succeeds exactly when every variant of every profile verifies on every seed and those of one profile agree. */
  method VerifyAll(entries: seq<Entry>, run: Verifier) returns (ok: bool)
    requires Plan(entries)
    ensures ok <==> forall e :: e in entries ==> EntryVerified(e, run)
  {
    var ids: Identities := map[];
    for i := 0 to |entries|
      invariant AllRecorded(ids, entries, i, run)
      invariant forall k :: 0 <= k < i ==> VariantsVerified(entries[k], |entries[k].variants|, run)
    {
      FreshKey(ids, entries, i, run);
      var next := VerifyEntry(entries[i], run, ids);
      VerifiedIff(entries[i], run);
      if next.None? {
        assert entries[i] in entries;
        return false;
      }
      RecordEntry(ids, next.value, entries, i, run);
      ids := next.value;
    }
    OneEachIff(ids, entries, run);
    EntriesVerifiedIff(entries, run);
    ok := CheckIdentities(ids);
  }

  lemma VerifiedIff(e: Entry, run: Verifier)
    ensures EntryVerified(e, run) <==>
            VariantsVerified(e, |e.variants|, run) && forall seed: nat :: seed < SEEDS ==> Agree(e, seed, run)
  {
    if VariantsVerified(e, |e.variants|, run) {
      forall v, seed: nat | v in e.variants && seed < SEEDS
        ensures Verified(e, v, seed, run)
      {
        var k :| 0 <= k < |e.variants| && e.variants[k] == v;
      }
    }
  }

  lemma EntriesVerifiedIff(entries: seq<Entry>, run: Verifier)
    requires forall k :: 0 <= k < |entries| ==> VariantsVerified(entries[k], |entries[k].variants|, run)
    ensures (forall e :: e in entries ==> EntryVerified(e, run)) <==>
            forall e, seed: nat :: e in entries && seed < SEEDS ==> Agree(e, seed, run)
  {
    forall e | e in entries
      ensures EntryVerified(e, run) <==> forall seed: nat :: seed < SEEDS ==> Agree(e, seed, run)
    {
      VerifiedIff(e, run);
    }
  }
}
