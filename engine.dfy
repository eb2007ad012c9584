// calculatePriorities of App.tsx: join each catalog pillar with its record, derive
// gap and priority score, sort by score (highest first, stably), then assign a level
// by position in the sorted list.
module Engine {
  import opened Types
  import opened Seqs
  import opened Catalog
  import opened StableSort

  /** Positions 0..HighBand-1 may be HIGH, HighBand..MediumBand-1 may be MEDIUM. */
  const HighBand := 3
  const MediumBand := 7

  /** `Math.max(0, score2026 - score2025)`. */
  function Gap(u: UserPillarData): (g: int)
    ensures g >= 0 && g >= u.score2026 - u.score2025
    ensures g == 0 || g == u.score2026 - u.score2025
  {
    if u.score2026 - u.score2025 > 0 then u.score2026 - u.score2025 else 0
  }

  /** One element of `PILLARS.map(...)`: definition and record spread, level MAINTENANCE for now. */
  function Process(def: PillarDefinition, u: UserPillarData): ProcessedPillar {
    var gap := Gap(u);
    ProcessedPillar(def.id, def.name, def.description, def.practices,
      u.score2025, u.score2026, u.importance, u.selectedPractices,
      gap, gap * u.importance, Maintenance)
  }

  /** Every catalog id has a record. */
  predicate Covers(defs: seq<PillarDefinition>, data: Assessment) {
    forall i :: 0 <= i < |defs| ==> defs[i].id in data
  }

  /** `PILLARS.map(def => ...)`. */
  function ProcessAll(defs: seq<PillarDefinition>, data: Assessment): (r: seq<ProcessedPillar>)
    requires Covers(defs, data)
    ensures |r| == |defs|
  {
    seq(|defs|, i requires 0 <= i < |defs| => Process(defs[i], data[defs[i].id]))
  }

  /** The ids of processed pillars, in order. */
  function Ids(s: seq<ProcessedPillar>): (r: seq<string>)
    ensures |r| == |s|
  {
    seq(|s|, i requires 0 <= i < |s| => s[i].id)
  }

  /** The sort key of the engine: `(a, b) => b.priorityScore - a.priorityScore` sorts by it, highest first. */
  function Score(p: ProcessedPillar): int {
    p.priorityScore
  }

  lemma IdsConcat(a: seq<ProcessedPillar>, b: seq<ProcessedPillar>)
    ensures Ids(a + b) == Ids(a) + Ids(b)
  {
  }

  lemma {:induction false} InsertPermutesIds(t: seq<ProcessedPillar>, x: ProcessedPillar)
    ensures multiset(Ids(Insert(t, x, Score))) == multiset(Ids(t)) + multiset{x.id}
  {
    if t == [] {
      assert Ids([x]) == [x.id];
    } else if t[|t| - 1].priorityScore < x.priorityScore {
      var init, last := t[..|t| - 1], t[|t| - 1];
      InsertPermutesIds(init, x);
      assert t == init + [last];
      IdsConcat(init, [last]);
      IdsConcat(Insert(init, x, Score), [last]);
      assert Ids([last]) == [last.id];
    } else {
      IdsConcat(t, [x]);
      assert Ids([x]) == [x.id];
    }
  }

  /** Sorting moves pillars, never their ids: the ids are a permutation. */
  lemma {:induction false} SortPermutesIds(s: seq<ProcessedPillar>)
    ensures multiset(Ids(Sort(s, Score))) == multiset(Ids(s))
  {
    if s != [] {
      var init, last := s[..|s| - 1], s[|s| - 1];
      SortPermutesIds(init);
      InsertPermutesIds(Sort(init, Score), last);
      assert s == init + [last];
      IdsConcat(init, [last]);
      assert Ids([last]) == [last.id];
    }
  }

  // ---------------------------------------------------------------------------
  // Levels by position, and the whole engine.

  /** The level of the pillar at position index of the sorted list. */
  function LevelAt(p: ProcessedPillar, index: int): Level {
    if p.gap == 0 then Maintenance
    else if index < HighBand then High
    else if index < MediumBand then Medium
    else Maintenance
  }

  /** `processed.forEach((p, index) => { p.level = ... })`. */
  function AssignLevels(s: seq<ProcessedPillar>): (r: seq<ProcessedPillar>)
    ensures |r| == |s|
  {
    seq(|s|, i requires 0 <= i < |s| => s[i].(level := LevelAt(s[i], i)))
  }

  /** calculatePriorities: process, sort by score, assign levels. */
  function Priorities(defs: seq<PillarDefinition>, data: Assessment): seq<ProcessedPillar>
    requires Covers(defs, data)
  {
    AssignLevels(Sort(ProcessAll(defs, data), Score))
  }

  /**
   * The level rule, position by position: a zero gap is MAINTENANCE; otherwise
   * positions 0-2 are HIGH, 3-6 MEDIUM and the rest MAINTENANCE. Nothing but the
   * level changes.
   */
  lemma LevelBands(s: seq<ProcessedPillar>)
    ensures var r := AssignLevels(s);
      forall i :: 0 <= i < |r| ==>
        && r[i].(level := s[i].level) == s[i]
        && (r[i].level == High <==> s[i].gap != 0 && i < HighBand)
        && (r[i].level == Medium <==> s[i].gap != 0 && HighBand <= i < MediumBand)
        && (r[i].level == Maintenance <==> s[i].gap == 0 || MediumBand <= i)
  {
  }

  /** No HIGH pillar comes after a MEDIUM one, and no MEDIUM after a band-MAINTENANCE one. */
  lemma LevelsOrdered(s: seq<ProcessedPillar>)
    ensures var r := AssignLevels(s);
      forall i, j :: 0 <= i < j < |r| ==>
        && !(r[i].level == Medium && r[j].level == High)
        && !(r[i].level == Maintenance && r[i].gap != 0 && r[j].level != Maintenance)
  {
  }

  /** Every field the user entered is carried over, gap and score derived from them. */
  predicate Agrees(p: ProcessedPillar, u: UserPillarData) {
    && p.score2025 == u.score2025
    && p.score2026 == u.score2026
    && p.importance == u.importance
    && p.selectedPractices == u.selectedPractices
    && p.gap == Gap(u)
    && p.priorityScore == p.gap * u.importance
  }

  lemma IdsProcessAll(defs: seq<PillarDefinition>, data: Assessment)
    requires Covers(defs, data)
    ensures Ids(ProcessAll(defs, data)) == DefIds(defs)
  {
  }

  /** Two lists that agree on ids and scores position by position have the same ids in every score class. */
  lemma {:induction false} ClassIdsAgree(s1: seq<ProcessedPillar>, s2: seq<ProcessedPillar>, k: int)
    requires |s1| == |s2|
    requires forall i :: 0 <= i < |s1| ==> s1[i].id == s2[i].id && s1[i].priorityScore == s2[i].priorityScore
    ensures Ids(Filter(s1, HasKey(Score, k))) == Ids(Filter(s2, HasKey(Score, k)))
  {
    if s1 != [] {
      var f := HasKey(Score, k);
      ClassIdsAgree(s1[1..], s2[1..], k);
      var h1 := if f(s1[0]) then [s1[0]] else [];
      var h2 := if f(s2[0]) then [s2[0]] else [];
      assert Filter(s1, f) == h1 + Filter(s1[1..], f);
      assert Filter(s2, f) == h2 + Filter(s2[1..], f);
      IdsConcat(h1, Filter(s1[1..], f));
      IdsConcat(h2, Filter(s2[1..], f));
      assert s1[0].priorityScore == s2[0].priorityScore;
      assert f(s1[0]) == (Score(s1[0]) == k) && f(s2[0]) == (Score(s2[0]) == k);
      assert Ids(h1) == (if f(s1[0]) then [s1[0].id] else []);
      assert Ids(h2) == (if f(s2[0]) then [s2[0].id] else []);
    }
  }

  /**
   * The engine's output: one entry per catalog pillar (as a multiset of ids),
   * highest score first, equal scores in catalog order, every entry carrying its
   * pillar's record with gap and score derived from it, and, apart from its level,
   * being exactly the processed form of one catalog definition.
   */
  lemma PrioritiesRanking(defs: seq<PillarDefinition>, data: Assessment)
    requires Covers(defs, data)
    ensures var r := Priorities(defs, data);
      && |r| == |defs|
      && multiset(Ids(r)) == multiset(DefIds(defs))
      && Descending(r, Score)
      && (forall k :: Ids(Filter(r, HasKey(Score, k))) == Ids(Filter(ProcessAll(defs, data), HasKey(Score, k))))
      && (forall i :: 0 <= i < |r| ==> r[i].id in data && Agrees(r[i], data[r[i].id]))
      && (forall i :: 0 <= i < |r| ==>
            exists j :: 0 <= j < |defs| && r[i].(level := Maintenance) == Process(defs[j], data[defs[j].id]))
  {
    var ps := ProcessAll(defs, data);
    var sorted := Sort(ps, Score);
    var r := AssignLevels(sorted);
    SortPermutes(ps, Score);
    SortPermutesIds(ps);
    SortOrders(ps, Score);
    IdsProcessAll(defs, data);
    assert Ids(r) == Ids(sorted);
    assert |sorted| == |ps| by {
      assert |multiset(sorted)| == |multiset(ps)|;
    }
    forall k ensures Ids(Filter(r, HasKey(Score, k))) == Ids(Filter(ps, HasKey(Score, k))) {
      ClassIdsAgree(r, sorted, k);
      SortStable(ps, Score, k);
    }
    forall i | 0 <= i < |r|
      ensures r[i].id in data && Agrees(r[i], data[r[i].id])
      ensures exists j :: 0 <= j < |defs| && r[i].(level := Maintenance) == Process(defs[j], data[defs[j].id])
    {
      assert sorted[i] in multiset(ps);
      var j :| 0 <= j < |ps| && ps[j] == sorted[i];
      assert ps[j] == Process(defs[j], data[defs[j].id]);
    }
  }

  /** A pillar whose target is at or below its current score is MAINTENANCE with score 0, whatever its importance. */
  lemma NoGapIsMaintenance(defs: seq<PillarDefinition>, data: Assessment)
    requires Covers(defs, data)
    ensures var r := Priorities(defs, data);
      forall i :: 0 <= i < |r| && r[i].id in data && data[r[i].id].score2026 <= data[r[i].id].score2025 ==>
        r[i].level == Maintenance && r[i].gap == 0 && r[i].priorityScore == 0
  {
    PrioritiesRanking(defs, data);
    LevelBands(Sort(ProcessAll(defs, data), Score));
  }

  /** With the catalog itself: ten entries and every catalog id exactly once, no other id. */
  lemma CatalogRanking(data: Assessment)
    requires Covers(Pillars, data)
    ensures var r := Priorities(Pillars, data);
      && |r| == 10
      && forall id :: multiset(Ids(r))[id] == if id in CatalogIds() then 1 else 0
  {
    PrioritiesRanking(Pillars, data);
    CatalogShape();
    var ids := DefIds(Pillars);
    forall id ensures multiset(ids)[id] == if id in CatalogIds() then 1 else 0 {
      DistinctOccursOnce(ids, id);
      assert id in ids <==> id in CatalogIds() by {
        if id in CatalogIds() {
          var i :| 0 <= i < |Pillars| && Pillars[i].id == id;
          assert ids[i] == id;
        }
      }
    }
  }

  /** The store of the worked example: pillar 0 at (2, 9, 5), pillar 1 at (3, 10, 4), the rest at the defaults. */
  function ExampleStore(): Assessment {
    InitialStore()[Pillars[0].id := UserPillarData(2, 9, 5, [])][Pillars[1].id := UserPillarData(3, 10, 4, [])]
  }

  /** The records of the worked example store, pillar by pillar. */
  lemma ExampleRecords()
    ensures |Pillars| == 10
    ensures forall i :: 0 <= i < |Pillars| ==> Pillars[i].id in ExampleStore()
    ensures ExampleStore()[Pillars[0].id] == UserPillarData(2, 9, 5, [])
    ensures ExampleStore()[Pillars[1].id] == UserPillarData(3, 10, 4, [])
    ensures forall i :: 2 <= i < |Pillars| ==> ExampleStore()[Pillars[i].id] == InitialPillarData
  {
    CatalogShape();
    assert forall i :: 0 <= i < |Pillars| ==> Pillars[i].id in CatalogIds();
    forall i | 2 <= i < |Pillars|
      ensures ExampleStore()[Pillars[i].id] == InitialPillarData
    {
      assert DefIds(Pillars)[i] != DefIds(Pillars)[0] && DefIds(Pillars)[i] != DefIds(Pillars)[1];
    }
  }

  /** The processed pillars of the worked example, before sorting, are already in descending order. */
  lemma ExampleProcessed()
    ensures Covers(Pillars, ExampleStore())
    ensures var ps := ProcessAll(Pillars, ExampleStore());
      && ps[0].priorityScore == 35 && ps[1].priorityScore == 28
      && (forall i :: 2 <= i < 10 ==> ps[i].priorityScore == 9)
      && (forall i :: 0 <= i < 10 ==> ps[i].gap != 0)
      && Descending(ps, Score)
  {
    ExampleRecords();
    var ps := ProcessAll(Pillars, ExampleStore());
    assert forall i :: 2 <= i < 10 ==> ps[i].priorityScore == 9 && ps[i].gap == 3;
    ExampleScoresDescend(ps);
  }

  /** Scores 35, 28, then eight 9s are in descending order. */
  lemma ExampleScoresDescend(ps: seq<ProcessedPillar>)
    requires |ps| == 10 && ps[0].priorityScore == 35 && ps[1].priorityScore == 28
    requires forall i :: 2 <= i < 10 ==> ps[i].priorityScore == 9
    ensures Descending(ps, Score)
  {
  }

  /** Ten pillars that all have a gap get levels H, H, H, M, M, M, M, Mt, Mt, Mt; ids and scores stay. */
  lemma TenWithGaps(ps: seq<ProcessedPillar>)
    requires |ps| == 10 && forall i :: 0 <= i < 10 ==> ps[i].gap != 0
    ensures var r := AssignLevels(ps);
      && Ids(r) == Ids(ps)
      && (forall i :: 0 <= i < 10 ==> r[i].priorityScore == ps[i].priorityScore)
      && (forall i :: 0 <= i < 3 ==> r[i].level == High)
      && (forall i :: 3 <= i < 7 ==> r[i].level == Medium)
      && (forall i :: 7 <= i < 10 ==> r[i].level == Maintenance)
  {
    LevelBands(ps);
    var r := AssignLevels(ps);
    assert forall i :: 0 <= i < 10 ==> r[i].id == ps[i].id;
  }

  /**
   * Worked example: scores 35, 28 and eight ties at 9; the ties stay in catalog
   * order, positions 0-2 are HIGH, 3-6 MEDIUM and 7-9 MAINTENANCE.
   */
  lemma WorkedExample()
    ensures Covers(Pillars, ExampleStore())
    ensures var r := Priorities(Pillars, ExampleStore());
      && Ids(r) == DefIds(Pillars)
      && r[0].priorityScore == 35 && r[1].priorityScore == 28
      && (forall i :: 2 <= i < 10 ==> r[i].priorityScore == 9)
      && (forall i :: 0 <= i < 3 ==> r[i].level == High)
      && (forall i :: 3 <= i < 7 ==> r[i].level == Medium)
      && (forall i :: 7 <= i < 10 ==> r[i].level == Maintenance)
  {
    ExampleProcessed();
    var ps := ProcessAll(Pillars, ExampleStore());
    SortKeepsDescending(ps, Score);
    IdsProcessAll(Pillars, ExampleStore());
    TenWithGaps(ps);
  }

  // ---------------------------------------------------------------------------
  // The imperative engine.

  /** calculatePriorities: build the processed array, sort it, then set each level in a loop. */
  method CalculatePriorities(defs: seq<PillarDefinition>, data: Assessment) returns (r: seq<ProcessedPillar>)
    requires Covers(defs, data)
    ensures r == Priorities(defs, data)
  {
    var ps := ProcessAll(defs, data);
    var processed := new ProcessedPillar[|ps|](i requires 0 <= i < |ps| => ps[i]);
    assert processed[..] == ps;
    SortInPlace(processed, Score);
    AssignLevelsInPlace(processed);
    r := processed[..];
  }

  /** `processed.forEach((p, index) => ...)`: set the level of every entry from its gap and position. */
  method AssignLevelsInPlace(processed: array<ProcessedPillar>)
    modifies processed
    ensures processed[..] == AssignLevels(old(processed[..]))
  {
    ghost var sorted := processed[..];
    for index := 0 to processed.Length
      invariant forall j :: 0 <= j < index ==> processed[j] == sorted[j].(level := LevelAt(sorted[j], j))
      invariant forall j :: index <= j < processed.Length ==> processed[j] == sorted[j]
    {
      var p := processed[index];
      var level;
      if p.gap == 0 {
        level := Maintenance;
      } else if index < HighBand {
        level := High;
      } else if index < MediumBand {
        level := Medium;
      } else {
        level := Maintenance;
      }
      processed[index] := p.(level := level);
    }
    assert processed[..] == AssignLevels(sorted);
  }
}
