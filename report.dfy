// The modelled part of components/StepResults.tsx: the radar chart's rows (names
// shortened to 15 characters plus "...") and the grouping of the ranking by level.
module Report {
  import opened Types
  import opened Seqs
  import opened Engine
  import opened Catalog

  const LabelLength := 15
  const FullMark := 10

  /** `name.length > 15 ? name.substring(0, 15) + '...' : name`. */
  function Label(name: string): (r: string)
    ensures |r| <= LabelLength + 3
    ensures |name| <= LabelLength ==> r == name
    ensures |name| > LabelLength ==> |r| == LabelLength + 3 && r[..LabelLength] == name[..LabelLength] && r[LabelLength..] == "..."
  {
    if |name| > LabelLength then name[..LabelLength] + "..." else name
  }

  /** A label keeps the first min(15, |name|) characters of the name. */
  lemma LabelKeepsPrefix(name: string)
    ensures var n := if |name| < LabelLength then |name| else LabelLength;
      n <= |Label(name)| && Label(name)[..n] == name[..n]
  {
  }

  /** One row of chartData. */
  datatype ChartRow = ChartRow(subject: string, fullSubject: string, a: int, b: int, fullMark: int)

  /** `processedData.map(p => ({ subject, fullSubject, A, B, fullMark: 10 }))`. */
  function ChartData(ps: seq<ProcessedPillar>): (r: seq<ChartRow>)
    ensures |r| == |ps|
    ensures forall i :: 0 <= i < |ps| ==>
      r[i] == ChartRow(Label(ps[i].name), ps[i].name, ps[i].score2025, ps[i].score2026, FullMark)
  {
    seq(|ps|, i requires 0 <= i < |ps| => ChartRow(Label(ps[i].name), ps[i].name, ps[i].score2025, ps[i].score2026, FullMark))
  }

  /**
   * Row i of the chart shows the i-th ranked pillar: the name of a catalog definition
   * with its id (the only one when catalog ids are distinct) and the user's two
   * scores for it.
   */
  lemma ChartFollowsRanking(defs: seq<PillarDefinition>, data: Assessment)
    requires Covers(defs, data)
    ensures var r := Priorities(defs, data);
      var rows := ChartData(r);
      && |rows| == |defs|
      && forall i :: 0 <= i < |rows| ==>
        && r[i].id in data
        && rows[i].fullSubject == r[i].name
        && rows[i].a == data[r[i].id].score2025
        && rows[i].b == data[r[i].id].score2026
        && |rows[i].subject| <= LabelLength + 3
        && (exists j :: 0 <= j < |defs| && defs[j].id == r[i].id && rows[i].fullSubject == defs[j].name)
        && (Distinct(DefIds(defs)) ==>
              forall j :: 0 <= j < |defs| && defs[j].id == r[i].id ==>
                rows[i].fullSubject == defs[j].name && rows[i].subject == Label(defs[j].name))
  {
    PrioritiesRanking(defs, data);
    var r := Priorities(defs, data);
    forall i | 0 <= i < |r|
      ensures exists j :: 0 <= j < |defs| && defs[j].id == r[i].id && r[i].name == defs[j].name
      ensures Distinct(DefIds(defs)) ==>
        forall j :: 0 <= j < |defs| && defs[j].id == r[i].id ==> r[i].name == defs[j].name
    {
      var j' :| 0 <= j' < |defs| && r[i].(level := Maintenance) == Process(defs[j'], data[defs[j'].id]);
      if Distinct(DefIds(defs)) {
        forall j | 0 <= j < |defs| && defs[j].id == r[i].id
          ensures r[i].name == defs[j].name
        {
          assert DefIds(defs)[j] == DefIds(defs)[j'];
        }
      }
    }
  }

  /** The predicate of `p.level === level`. */
  function IsLevel(level: Level): ProcessedPillar -> bool {
    (p: ProcessedPillar) => p.level == level
  }

  /** highPriority, mediumPriority, maintenance: `processedData.filter(p => p.level === level)`. */
  function Group(ps: seq<ProcessedPillar>, level: Level): seq<ProcessedPillar> {
    Filter(ps, IsLevel(level))
  }

  /** A pillar occurs in its own level's group as often as in the input, and in no other group. */
  lemma GroupCount(ps: seq<ProcessedPillar>, level: Level, p: ProcessedPillar)
    ensures multiset(Group(ps, level))[p] == if p.level == level then multiset(ps)[p] else 0
  {
    FilterMultiset(ps, IsLevel(level), p);
  }

  /** A group holds exactly the pillars of its level, each as often as in the input, in input order. */
  lemma GroupContents(ps: seq<ProcessedPillar>, level: Level)
    ensures forall p :: p in Group(ps, level) <==> p in ps && p.level == level
    ensures forall p :: multiset(Group(ps, level))[p] == if p.level == level then multiset(ps)[p] else 0
    ensures IsSubsequence(Group(ps, level), ps)
  {
    forall p ensures multiset(Group(ps, level))[p] == if p.level == level then multiset(ps)[p] else 0 {
      GroupCount(ps, level, p);
    }
    FilterIsSubsequence(ps, IsLevel(level));
  }

  /** The three groups are pairwise disjoint and together hold every pillar of the input. */
  lemma GroupsPartition(ps: seq<ProcessedPillar>)
    ensures var high, medium, maintenance := Group(ps, High), Group(ps, Medium), Group(ps, Maintenance);
      && multiset(high) + multiset(medium) + multiset(maintenance) == multiset(ps)
      && multiset(high) !! multiset(medium)
      && multiset(high) !! multiset(maintenance)
      && multiset(medium) !! multiset(maintenance)
  {
    var high, medium, maintenance := multiset(Group(ps, High)), multiset(Group(ps, Medium)), multiset(Group(ps, Maintenance));
    forall p
      ensures (high + medium + maintenance)[p] == multiset(ps)[p]
      ensures high[p] == 0 || medium[p] == 0
      ensures high[p] == 0 || maintenance[p] == 0
      ensures medium[p] == 0 || maintenance[p] == 0
    {
      GroupCount(ps, High, p);
      GroupCount(ps, Medium, p);
      GroupCount(ps, Maintenance, p);
    }
    assert high + medium + maintenance == multiset(ps);
  }

  /** On the engine's output at most 3 pillars are HIGH and at most 4 MEDIUM. */
  lemma RankingGroupSizes(defs: seq<PillarDefinition>, data: Assessment)
    requires Covers(defs, data)
    ensures var r := Priorities(defs, data);
      |Group(r, High)| <= HighBand && |Group(r, Medium)| <= MediumBand - HighBand
  {
    var sorted := StableSort.Sort(ProcessAll(defs, data), Score);
    var r := AssignLevels(sorted);
    LevelBands(sorted);
    FilterCountBound(r, IsLevel(High), 0, HighBand);
    FilterCountBound(r, IsLevel(Medium), HighBand, MediumBand);
  }
}
