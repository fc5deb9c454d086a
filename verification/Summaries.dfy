/** Analysis of stored profiles and the cache of benchmark summaries. */
module Summaries {
  import opened Sequences

  datatype Key = Key(benchmark: string, vendor: string, cluster: string)

  /** A stored profile; samples stands for everything the analysis derives for its endpoints. */
  datatype Profile = Profile(id: nat, key: Key, running: bool, processed: bool, corrupted: bool, samples: seq<int>)
  {
    predicate Contributes(k: Key) { processed && !corrupted && key == k }
  }

  /** A cached summary with the rows it was computed from; every stored statistic is a function of them. */
  datatype Summary = Summary(key: Key, rows: seq<Profile>)

  /** How converting one profile ends, and the samples left in the database. */
  datatype Conversion = Succeeds(samples: seq<int>) | MarkedCorrupt(samples: seq<int>) | Raises(samples: seq<int>)

  function Contributing(k: Key): Profile -> bool { (p: Profile) => p.Contributes(k) }

  function HasKey(k: Key): Summary -> bool { (s: Summary) => s.key == k }

  function HasOtherKey(k: Key): Summary -> bool { (s: Summary) => s.key != k }

  /** What a summary of the key computed now would be made from: the processed, uncorrupted profiles of the key. */
  function Recompute(profiles: seq<Profile>, k: Key): seq<Profile>
  {
    Filter(profiles, Contributing(k))
  }

  /** clear_analysis_data. */
  function Cleared(p: Profile): Profile { p.(processed := false, corrupted := false, samples := []) }

  /** convert_profile: clear, then process; only ProfileCorruptError marks the profile, other exceptions escape. */
  function Converted(p: Profile, c: Conversion): Profile
  {
    match c
    case Succeeds(samples) => Cleared(p).(samples := samples, processed := true)
    case MarkedCorrupt(samples) => Cleared(p).(samples := samples, processed := true, corrupted := true)
    case Raises(samples) => Cleared(p).(samples := samples)
  }

  /** A finished profile is converted when forced or not yet processed. */
  predicate Selected(p: Profile, force: bool) { !p.running && (force || !p.processed) }

  function Analysed(p: Profile, force: bool, c: Conversion): Profile
  {
    if Selected(p, force) then Converted(p, c) else p
  }

  // ----- Coherence -----

  /** At most one summary of the key, and it agrees with recomputation. */
  ghost predicate Coherent(profiles: seq<Profile>, summaries: seq<Summary>, k: Key)
  {
    && Count(summaries, HasKey(k)) <= 1
    && forall s :: s in summaries && s.key == k ==> s.rows == Recompute(profiles, k)
  }

  ghost predicate UpToDate(profiles: seq<Profile>, summaries: seq<Summary>, k: Key)
  {
    Count(summaries, HasKey(k)) == 1 && Coherent(profiles, summaries, k)
  }

  ghost predicate CorruptedIsProcessed(profiles: seq<Profile>)
  {
    forall p :: p in profiles ==> p.corrupted ==> p.processed
  }

  /** Changing a profile that contributes to the key neither before nor after changes nothing for the key. */
  lemma RecomputeIgnores(profiles: seq<Profile>, i: nat, p: Profile, k: Key)
    requires i < |profiles| && !profiles[i].Contributes(k) && !p.Contributes(k)
    ensures Recompute(profiles[i := p], k) == Recompute(profiles, k)
  {
    var before, after := profiles[..i], profiles[i + 1..];
    assert profiles == before + [profiles[i]] + after && profiles[i := p] == before + [p] + after;
    FilterConcat(before + [profiles[i]], after, Contributing(k));
    FilterConcat(before, [profiles[i]], Contributing(k));
    FilterConcat(before + [p], after, Contributing(k));
    FilterConcat(before, [p], Contributing(k));
    assert [profiles[i]][1..] == [] && [p][1..] == [];
  }

  /** Deleting the summaries of one key leaves none of it and all others. */
  lemma {:induction false} DeleteKey(summaries: seq<Summary>, k: Key, other: Key)
    ensures var rest := Filter(summaries, HasOtherKey(k));
      && Count(rest, HasKey(k)) == 0
      && (other != k ==> Count(rest, HasKey(other)) == Count(summaries, HasKey(other)))
      && (forall s :: s in rest <==> s in summaries && s.key != k)
  {
    if summaries != [] {
      DeleteKey(summaries[1..], k, other);
      var head, rest := if summaries[0].key != k then [summaries[0]] else [], Filter(summaries[1..], HasOtherKey(k));
      CountConcat(head, rest, HasKey(k));
      CountConcat(head, rest, HasKey(other));
      assert [summaries[0]][1..] == [];
      assert Filter(summaries, HasOtherKey(k)) == head + rest;
      assert summaries == [summaries[0]] + summaries[1..];
    }
  }

  lemma {:induction false} NoneOrSome(summaries: seq<Summary>, k: Key)
    ensures Count(summaries, HasKey(k)) == 0 <==> forall s :: s in summaries ==> s.key != k
  {
    if summaries != [] {
      NoneOrSome(summaries[1..], k);
      assert summaries == [summaries[0]] + summaries[1..];
      assert summaries[0] in summaries;
    }
  }

  /** Creating a summary when there is none brings its key up to date and leaves the others alone. */
  lemma CreationBringsUpToDate(profiles: seq<Profile>, summaries: seq<Summary>, k: Key, other: Key)
    requires Count(summaries, HasKey(k)) == 0
    ensures var created := summaries + [Summary(k, Recompute(profiles, k))];
      && UpToDate(profiles, created, k)
      && (UpToDate(profiles, summaries, other) ==> UpToDate(profiles, created, other))
      && (Coherent(profiles, summaries, other) ==> Coherent(profiles, created, other))
  {
    var made := Summary(k, Recompute(profiles, k));
    NoneOrSome(summaries, k);
    CountConcat(summaries, [made], HasKey(k));
    CountConcat(summaries, [made], HasKey(other));
    assert [made][1..] == [];
  }

  // ----- The commands -----

  /** The registered identifiers, and the keys for which summaries are kept, in the order of the loops. */
  datatype Registry = Registry(benchmarks: seq<string>, vendors: seq<string>, clusters: seq<string>, analysed: seq<Key>)
  {
    /** invalidate() needs the registered objects of all three identifiers; a missing one raises. */
    predicate Resolves(k: Key) { k.benchmark in benchmarks && k.vendor in vendors && k.cluster in clusters }

    predicate Valid() { forall k :: k in analysed ==> Resolves(k) }
  }

  /** Some profile of the key is converted without raising, and the key's summaries are deleted for it. */
  predicate Invalidated(registry: Registry, profiles: seq<Profile>, force: bool, conversions: seq<Conversion>, k: Key)
    requires |conversions| == |profiles|
  {
    registry.Resolves(k) &&
    exists i :: 0 <= i < |profiles| && profiles[i].key == k && Selected(profiles[i], force) && !conversions[i].Raises?
  }

  /** What analyze makes of the profiles and of the summaries. */
  function AnalysedProfiles(profiles: seq<Profile>, force: bool, conversions: seq<Conversion>): (r: seq<Profile>)
    requires |conversions| == |profiles|
    ensures |r| == |profiles|
  {
    seq(|profiles|, i requires 0 <= i < |profiles| => Analysed(profiles[i], force, conversions[i]))
  }

  function Remaining(registry: Registry, profiles: seq<Profile>, force: bool,
      conversions: seq<Conversion>): Summary -> bool
    requires |conversions| == |profiles|
  {
    (s: Summary) => !Invalidated(registry, profiles, force, conversions, s.key)
  }

  function AnalysedSummaries(registry: Registry, profiles: seq<Profile>, summaries: seq<Summary>, force: bool,
      conversions: seq<Conversion>): seq<Summary>
    requires |conversions| == |profiles|
  {
    Filter(summaries, Remaining(registry, profiles, force, conversions))
  }

  class Database {
    var profiles: seq<Profile>
    var summaries: seq<Summary>

    constructor (profiles: seq<Profile>)
      ensures this.profiles == profiles && summaries == []
    {
      this.profiles, summaries := profiles, [];
    }

    method ConvertProfile(i: nat, c: Conversion) returns (raised: bool)
      requires i < |profiles|
      modifies this`profiles
      ensures profiles == old(profiles)[i := Converted(old(profiles)[i], c)]
      ensures raised == c.Raises?
    {
      profiles := profiles[i := Cleared(profiles[i])];
      var profile := profiles[i].(samples := c.samples);
      match c {
        case Succeeds(_) => profile := profile.(processed := true);
        case MarkedCorrupt(_) =>
          profile := profile.(processed := true);
          profile := profile.(corrupted := true);
        case Raises(_) =>
      }
      profiles := profiles[i := profile];
      raised := c.Raises?;
    }

    method Invalidate(k: Key)
      modifies this`summaries
      ensures summaries == Filter(old(summaries), HasOtherKey(k))
    {
      summaries := Filter(summaries, HasOtherKey(k));
    }

    method Create(k: Key, forceUpdate: bool)
      modifies this`summaries
      ensures summaries ==
        if Count(old(summaries), HasKey(k)) > 0 && !forceUpdate then old(summaries)
        else Filter(old(summaries), HasOtherKey(k)) + [Summary(k, Recompute(profiles, k))]
    {
      if Count(summaries, HasKey(k)) > 0 {
        if forceUpdate {
          summaries := Filter(summaries, HasOtherKey(k));
        } else {
          return;
        }
      } else {
        NoneOrSome(summaries, k);
        FilterAllOrNothing(summaries, HasOtherKey(k));
      }
      summaries := summaries + [Summary(k, Recompute(profiles, k))];
    }

    /** Converts the finished profiles, all of them or the unprocessed ones, and deletes the summaries of the keys of
        those that were converted without raising. */
    method Analyze(registry: Registry, force: bool, conversions: seq<Conversion>) returns (converted: nat)
      requires |conversions| == |profiles|
      modifies this
      ensures profiles == AnalysedProfiles(old(profiles), force, conversions)
      ensures summaries == AnalysedSummaries(registry, old(profiles), old(summaries), force, conversions)
      ensures old(CorruptedIsProcessed(profiles)) ==> CorruptedIsProcessed(profiles)
      ensures forall k :: registry.Resolves(k) && old(Coherent(profiles, summaries, k)) ==>
        (Coherent(profiles, summaries, k) <==> KeepsCoherence(old(profiles), old(summaries), force, conversions, k))
    {
      converted := 0;
      FilterAllOrNothing(summaries, Remaining(registry, profiles[..0], force, conversions[..0]));
      for i := 0 to |profiles|
        invariant |profiles| == |old(profiles)|
        invariant forall j :: i <= j < |profiles| ==> profiles[j] == old(profiles)[j]
        invariant forall j :: 0 <= j < i ==> profiles[j] == Analysed(old(profiles)[j], force, conversions[j])
        invariant summaries == AnalysedSummaries(registry, old(profiles)[..i], old(summaries), force, conversions[..i])
      {
        var profile := profiles[i];
        if !profile.running && (force || !profile.processed) {
          var raised := ConvertProfile(i, conversions[i]);
          if !raised && registry.Resolves(profile.key) {
            Invalidate(profile.key);
            converted := converted + 1;
          }
        }
        InvalidationStep(registry, old(profiles), old(summaries), force, conversions, i);
      }
      assert old(profiles)[..|profiles|] == old(profiles) && conversions[..|profiles|] == conversions;
      assert profiles == AnalysedProfiles(old(profiles), force, conversions);
      AnalysisOutcome(registry, old(profiles), old(summaries), force, conversions);
    }

    /** Makes one summary for every analysed key: a forced run rebuilds them all, an unforced one fills the gaps. */
    method Summarize(registry: Registry, force: bool)
      requires !force ==> forall k :: k in registry.analysed ==> Coherent(profiles, summaries, k)
      modifies this`summaries
      ensures forall k :: k in registry.analysed ==> UpToDate(profiles, summaries, k)
    {
      var keys := registry.analysed;
      for i := 0 to |keys|
        invariant forall j :: 0 <= j < i ==> UpToDate(profiles, summaries, keys[j])
        invariant !force ==> forall k :: k in keys ==> Coherent(profiles, summaries, k)
      {
        ghost var before := summaries;
        Create(keys[i], force);
        CreateStep(profiles, before, summaries, keys[i], force, keys, i);
      }
    }

    /** run_analysis with both stages: exactly one summary per analysed key, equal to recomputation, whatever the
        conversions do. A forced run needs no coherence to start from. */
    method RunAnalysis(registry: Registry, force: bool, conversions: seq<Conversion>)
      requires registry.Valid() && |conversions| == |profiles| && CorruptedIsProcessed(profiles)
      requires !force ==> forall k :: k in registry.analysed ==> Coherent(profiles, summaries, k)
      modifies this
      ensures CorruptedIsProcessed(profiles) && |profiles| == |old(profiles)|
      ensures forall k :: k in registry.analysed ==> UpToDate(profiles, summaries, k)
    {
      var _ := Analyze(registry, force, conversions);
      Summarize(registry, force);
    }
  }

  /** One pass of the summary loop. */
  lemma CreateStep(profiles: seq<Profile>, before: seq<Summary>, after: seq<Summary>, k: Key, force: bool,
      keys: seq<Key>, i: nat)
    requires i < |keys| && keys[i] == k
    requires forall j :: 0 <= j < i ==> UpToDate(profiles, before, keys[j])
    requires !force ==> forall key :: key in keys ==> Coherent(profiles, before, key)
    requires after ==
      if Count(before, HasKey(k)) > 0 && !force then before
      else Filter(before, HasOtherKey(k)) + [Summary(k, Recompute(profiles, k))]
    ensures forall j :: 0 <= j < i + 1 ==> UpToDate(profiles, after, keys[j])
    ensures !force ==> forall key :: key in keys ==> Coherent(profiles, after, key)
  {
    assert keys[i] in keys;
    if !(Count(before, HasKey(k)) > 0 && !force) {
      forall other
        ensures UpToDate(profiles, after, k)
        ensures UpToDate(profiles, before, other) ==> UpToDate(profiles, after, other)
        ensures Coherent(profiles, before, other) ==> Coherent(profiles, after, other)
      {
        Recreated(profiles, before, k, other);
      }
    }
  }

  lemma Recreated(profiles: seq<Profile>, before: seq<Summary>, k: Key, other: Key)
    ensures var after := Filter(before, HasOtherKey(k)) + [Summary(k, Recompute(profiles, k))];
      && UpToDate(profiles, after, k)
      && (UpToDate(profiles, before, other) ==> UpToDate(profiles, after, other))
      && (Coherent(profiles, before, other) ==> Coherent(profiles, after, other))
  {
    DeleteKey(before, k, other);
    CreationBringsUpToDate(profiles, Filter(before, HasOtherKey(k)), k, other);
  }

  // ----- Coherence after an analysis -----

  lemma {:induction false} FilterTwice(s: seq<Summary>, p: Summary -> bool, q: Summary -> bool, r: Summary -> bool)
    requires forall x :: x in s ==> (r(x) <==> p(x) && q(x))
    ensures Filter(Filter(s, p), q) == Filter(s, r)
  {
    if s != [] {
      FilterTwice(s[1..], p, q, r);
      assert s[0] in s;
      var head := if p(s[0]) then [s[0]] else [];
      FilterConcat(head, Filter(s[1..], p), q);
      assert p(s[0]) ==> head[1..] == [];
    }
  }

  /** One pass of the analysis loop. */
  lemma InvalidationStep(registry: Registry, profiles: seq<Profile>, summaries: seq<Summary>, force: bool,
      conversions: seq<Conversion>, i: nat)
    requires |conversions| == |profiles| && i < |profiles|
    ensures var before := AnalysedSummaries(registry, profiles[..i], summaries, force, conversions[..i]);
      AnalysedSummaries(registry, profiles[..i + 1], summaries, force, conversions[..i + 1]) ==
        if Selected(profiles[i], force) && !conversions[i].Raises? && registry.Resolves(profiles[i].key)
        then Filter(before, HasOtherKey(profiles[i].key)) else before
  {
    var p := Remaining(registry, profiles[..i], force, conversions[..i]);
    var r := Remaining(registry, profiles[..i + 1], force, conversions[..i + 1]);
    var hit := Selected(profiles[i], force) && !conversions[i].Raises? && registry.Resolves(profiles[i].key);
    var q := if hit then HasOtherKey(profiles[i].key) else (s: Summary) => true;
    forall k
      ensures Invalidated(registry, profiles[..i + 1], force, conversions[..i + 1], k)
         <==> Invalidated(registry, profiles[..i], force, conversions[..i], k) || (hit && k == profiles[i].key)
    {
      InvalidatedStep(registry, profiles, force, conversions, i, k);
    }
    FilterTwice(summaries, p, q, r);
    FilterAllOrNothing(Filter(summaries, p), q);
  }

  lemma InvalidatedStep(registry: Registry, profiles: seq<Profile>, force: bool, conversions: seq<Conversion>, i: nat,
      k: Key)
    requires |conversions| == |profiles| && i < |profiles|
    ensures Invalidated(registry, profiles[..i + 1], force, conversions[..i + 1], k) <==>
      || Invalidated(registry, profiles[..i], force, conversions[..i], k)
      || (registry.Resolves(k) && profiles[i].key == k && Selected(profiles[i], force) && !conversions[i].Raises?)
  {
    var ps, cs := profiles[..i + 1], conversions[..i + 1];
    if Invalidated(registry, profiles[..i], force, conversions[..i], k) {
      var j :| 0 <= j < i && profiles[..i][j].key == k && Selected(profiles[..i][j], force)
        && !conversions[..i][j].Raises?;
      assert ps[j] == profiles[..i][j] && cs[j] == conversions[..i][j];
    }
    if Invalidated(registry, ps, force, cs, k) {
      var j :| 0 <= j < i + 1 && ps[j].key == k && Selected(ps[j], force) && !cs[j].Raises?;
      if j < i { assert ps[j] == profiles[..i][j] && cs[j] == conversions[..i][j]; }
    }
    assert ps[i] == profiles[i] && cs[i] == conversions[i];
  }

  predicate SelectedContributes(p: Profile, force: bool, k: Key) { Selected(p, force) && p.Contributes(k) }

  /** When every selected profile of the key raises, just those of them that contributed are missing afterwards. */
  lemma {:induction false} RaisingDropsContributions(profiles: seq<Profile>, force: bool, conversions: seq<Conversion>,
      k: Key)
    requires |conversions| == |profiles|
    requires forall i :: 0 <= i < |profiles| && profiles[i].key == k && Selected(profiles[i], force) ==>
      conversions[i].Raises?
    ensures |Recompute(AnalysedProfiles(profiles, force, conversions), k)| <= |Recompute(profiles, k)|
    ensures Recompute(AnalysedProfiles(profiles, force, conversions), k) == Recompute(profiles, k) <==>
      forall i :: 0 <= i < |profiles| ==> !SelectedContributes(profiles[i], force, k)
  {
    if profiles != [] {
      var ps, cs := profiles[1..], conversions[1..];
      RaisingDropsContributions(ps, force, cs, k);
      assert AnalysedProfiles(profiles, force, conversions)[1..] == AnalysedProfiles(ps, force, cs);
      var head, rest, rest' := profiles[0], Recompute(ps, k), Recompute(AnalysedProfiles(ps, force, cs), k);
      NoneSelected(profiles, force, k);
      if head.Contributes(k) && !Selected(head, force) {
        assert Recompute(profiles, k) == [head] + rest;
        assert Recompute(AnalysedProfiles(profiles, force, conversions), k) == [head] + rest';
        assert [head] + rest == [head] + rest' <==> rest == rest' by {
          assert ([head] + rest)[1..] == rest && ([head] + rest')[1..] == rest';
        }
      } else if head.Contributes(k) {
        assert Recompute(profiles, k) == [head] + rest;
      } else {
        assert !Analysed(head, force, conversions[0]).Contributes(k);
        assert Recompute(profiles, k) == rest;
        assert Recompute(AnalysedProfiles(profiles, force, conversions), k) == rest';
      }
    }
  }

  lemma NoneSelected(profiles: seq<Profile>, force: bool, k: Key)
    requires profiles != []
    ensures (forall i :: 0 <= i < |profiles| ==> !SelectedContributes(profiles[i], force, k)) <==>
      !SelectedContributes(profiles[0], force, k)
      && forall i :: 0 <= i < |profiles[1..]| ==> !SelectedContributes(profiles[1..][i], force, k)
  {
    assert forall i :: 0 < i < |profiles| ==> profiles[i] == profiles[1..][i - 1];
  }

  /** There was no summary of the key, or one of its selected profiles converts without raising, or no selected profile
      contributed to it. */
  ghost predicate KeepsCoherence(profiles: seq<Profile>, summaries: seq<Summary>, force: bool,
      conversions: seq<Conversion>, k: Key)
    requires |conversions| == |profiles|
  {
    || (forall s :: s in summaries ==> s.key != k)
    || (exists i :: 0 <= i < |profiles| &&
          profiles[i].key == k && Selected(profiles[i], force) && !conversions[i].Raises?)
    || (forall i :: 0 <= i < |profiles| ==> !SelectedContributes(profiles[i], force, k))
  }

  /** The exact condition under which an analysis that starts coherent leaves the key coherent, forced or not. */
  lemma AnalysisKeepsCoherenceIff(registry: Registry, profiles: seq<Profile>, summaries: seq<Summary>, force: bool,
      conversions: seq<Conversion>, k: Key)
    requires |conversions| == |profiles| && registry.Resolves(k) && Coherent(profiles, summaries, k)
    ensures Coherent(AnalysedProfiles(profiles, force, conversions),
        AnalysedSummaries(registry, profiles, summaries, force, conversions), k) <==>
      KeepsCoherence(profiles, summaries, force, conversions, k)
  {
    var after := AnalysedSummaries(registry, profiles, summaries, force, conversions);
    var p := Remaining(registry, profiles, force, conversions);
    FilterMembers(summaries, p);
    CountFiltered(summaries, p, HasKey(k));
    if Invalidated(registry, profiles, force, conversions, k) {
      NoneOrSome(after, k);
    } else {
      RaisingDropsContributions(profiles, force, conversions, k);
    }
  }

  lemma {:induction false} CountFiltered(s: seq<Summary>, p: Summary -> bool, q: Summary -> bool)
    ensures Count(Filter(s, p), q) <= Count(s, q)
  {
    if s != [] {
      CountFiltered(s[1..], p, q);
      var head := if p(s[0]) then [s[0]] else [];
      CountConcat(head, Filter(s[1..], p), q);
      assert p(s[0]) ==> head[1..] == [];
    }
  }

  /** What an analysis keeps: corrupted profiles are processed, and coherence just under the exact condition. */
  lemma AnalysisOutcome(registry: Registry, profiles: seq<Profile>, summaries: seq<Summary>, force: bool,
      conversions: seq<Conversion>)
    requires |conversions| == |profiles|
    ensures var profiles' := AnalysedProfiles(profiles, force, conversions);
      var summaries' := AnalysedSummaries(registry, profiles, summaries, force, conversions);
      && (CorruptedIsProcessed(profiles) ==> CorruptedIsProcessed(profiles'))
      && forall k :: registry.Resolves(k) && Coherent(profiles, summaries, k) ==>
           (Coherent(profiles', summaries', k) <==> KeepsCoherence(profiles, summaries, force, conversions, k))
  {
    forall k | registry.Resolves(k) && Coherent(profiles, summaries, k)
      ensures Coherent(AnalysedProfiles(profiles, force, conversions),
          AnalysedSummaries(registry, profiles, summaries, force, conversions), k) <==>
        KeepsCoherence(profiles, summaries, force, conversions, k)
    {
      AnalysisKeepsCoherenceIff(registry, profiles, summaries, force, conversions, k);
    }
  }

  ghost predicate StaysCoherent(registry: Registry, profiles: seq<Profile>, summaries: seq<Summary>, force: bool,
      conversions: seq<Conversion>, k: Key)
  {
    |conversions| == |profiles| ==>
      Coherent(AnalysedProfiles(profiles, force, conversions),
        AnalysedSummaries(registry, profiles, summaries, force, conversions), k)
  }

  /** Before a forced analysis that is not followed by summarising: the key is sure to stay coherent, however the
      conversions end, exactly when it has no summary or no finished profile contributes to it. */
  lemma ForcedAnalysisIsSafeIff(registry: Registry, profiles: seq<Profile>, summaries: seq<Summary>, k: Key)
    requires registry.Resolves(k) && Coherent(profiles, summaries, k)
    ensures (forall conversions :: StaysCoherent(registry, profiles, summaries, true, conversions, k)) <==>
      || (forall s :: s in summaries ==> s.key != k)
      || (forall i :: 0 <= i < |profiles| && profiles[i].Contributes(k) ==> profiles[i].running)
  {
    var raising := seq(|profiles|, _ => Raises([]));
    AnalysisKeepsCoherenceIff(registry, profiles, summaries, true, raising, k);
    assert StaysCoherent(registry, profiles, summaries, true, raising, k) <==>
      Coherent(AnalysedProfiles(profiles, true, raising),
        AnalysedSummaries(registry, profiles, summaries, true, raising), k);
    if || (forall s :: s in summaries ==> s.key != k)
       || (forall i :: 0 <= i < |profiles| && profiles[i].Contributes(k) ==> profiles[i].running)
    {
      forall conversions ensures StaysCoherent(registry, profiles, summaries, true, conversions, k) {
        if |conversions| == |profiles| {
          AnalysisKeepsCoherenceIff(registry, profiles, summaries, true, conversions, k);
        }
      }
    }
  }

  /** Clearing a profile without invalidating its key keeps an up-to-date summary coherent exactly when the profile did
      not contribute to it. */
  lemma ClearingKeepsCoherenceIff(profiles: seq<Profile>, summaries: seq<Summary>, i: nat)
    requires i < |profiles| && UpToDate(profiles, summaries, profiles[i].key)
    ensures Coherent(profiles[i := Cleared(profiles[i])], summaries, profiles[i].key) <==>
      !profiles[i].Contributes(profiles[i].key)
  {
    var k, p := profiles[i].key, Cleared(profiles[i]);
    NoneOrSome(summaries, k);
    if profiles[i].Contributes(k) {
      var before, after := profiles[..i], profiles[i + 1..];
      assert profiles == before + [profiles[i]] + after && profiles[i := p] == before + [p] + after;
      FilterConcat(before + [profiles[i]], after, Contributing(k));
      FilterConcat(before, [profiles[i]], Contributing(k));
      FilterConcat(before + [p], after, Contributing(k));
      FilterConcat(before, [p], Contributing(k));
      assert [profiles[i]][1..] == [] && [p][1..] == [];
      assert |Recompute(profiles, k)| == |Recompute(profiles[i := p], k)| + 1;
    } else {
      RecomputeIgnores(profiles, i, p, k);
    }
  }
}
