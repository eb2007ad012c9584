// The assessment-store updates of App.tsx: handleUpdate overwrites one numeric field
// of one pillar, handleTogglePractice adds or removes a practice. Both build the new
// store as an expression over the old one (object spread, filter, array spread).
module Store {
  import opened Types
  import opened Seqs
  import Catalog

  /** The value of one numeric field of a record. */
  function Get(u: UserPillarData, field: Field): int {
    match field
    case Score2025 => u.score2025
    case Score2026 => u.score2026
    case Importance => u.importance
  }

  /** handleUpdate(id, value, field): `{ ...prev, [id]: { ...prev[id], [field]: value } }`. */
  function Update(data: Assessment, id: string, value: int, field: Field): (r: Assessment)
    requires id in data
    ensures r.Keys == data.Keys
    ensures Get(r[id], field) == value
    ensures forall g :: g != field ==> Get(r[id], g) == Get(data[id], g)
    ensures r[id].selectedPractices == data[id].selectedPractices
    ensures forall other :: other in data && other != id ==> r[other] == data[other]
  {
    var u := data[id];
    var u' := match field
      case Score2025 => u.(score2025 := value)
      case Score2026 => u.(score2026 := value)
      case Importance => u.(importance := value);
    data[id := u']
  }

  /** The predicate of `current.filter(p => p !== practice)`. */
  function Other(practice: string): string -> bool {
    p => p != practice
  }

  /**
   * The new practice list of handleTogglePractice: every occurrence removed when the
   * practice is present, the practice appended at the end when it is absent.
   */
  function ToggledList(current: seq<string>, practice: string): (r: seq<string>)
    ensures practice in r <==> practice !in current
    ensures forall q :: q != practice ==> multiset(r)[q] == multiset(current)[q]
  {
    if practice in current then
      var r := Filter(current, Other(practice));
      FilterMembers(current, Other(practice));
      assert forall q :: multiset(r)[q] == if q != practice then multiset(current)[q] else 0 by {
        forall q { FilterMultiset(current, Other(practice), q); }
      }
      r
    else
      current + [practice]
  }

  /** handleTogglePractice(id, practice): only the selected practices of pillar id change. */
  function TogglePractice(data: Assessment, id: string, practice: string): (r: Assessment)
    requires id in data
    ensures r.Keys == data.Keys
    ensures r[id] == data[id].(selectedPractices := ToggledList(data[id].selectedPractices, practice))
    ensures forall other :: other in data && other != id ==> r[other] == data[other]
  {
    data[id := data[id].(selectedPractices := ToggledList(data[id].selectedPractices, practice))]
  }

  /** Removing a practice keeps the other practices in their order. */
  lemma ToggleRemovalKeepsOrder(current: seq<string>, practice: string)
    requires practice in current
    ensures IsSubsequence(ToggledList(current, practice), current)
  {
    FilterIsSubsequence(current, Other(practice));
  }

  /** Adding a practice appends it after the existing ones. */
  lemma ToggleAdditionAppends(current: seq<string>, practice: string)
    requires practice !in current
    ensures ToggledList(current, practice) == current + [practice]
  {
  }

  /** Toggling twice restores membership of every practice. */
  lemma ToggleTwiceMembership(current: seq<string>, practice: string)
    ensures forall q :: q in ToggledList(ToggledList(current, practice), practice) <==> q in current
  {
    var once := ToggledList(current, practice);
    var twice := ToggledList(once, practice);
    forall q
      ensures q in twice <==> q in current
    {
      if q != practice {
        assert multiset(twice)[q] == multiset(current)[q];
      }
    }
  }

  /** Toggling an absent practice twice restores the exact list. */
  lemma {:induction false} ToggleTwiceRestores(current: seq<string>, practice: string)
    requires practice !in current
    ensures ToggledList(ToggledList(current, practice), practice) == current
  {
    FilterConcat(current, [practice], Other(practice));
    FilterAll(current, Other(practice));
    assert Filter([practice], Other(practice)) == [];
  }

  /** Updating a field twice keeps only the last value. */
  lemma UpdateTwice(data: Assessment, id: string, v1: int, v2: int, field: Field)
    requires id in data
    ensures Update(Update(data, id, v1, field), id, v2, field) == Update(data, id, v2, field)
  {
  }

  /** At store level: toggling twice restores every record's membership, and the store when the practice was absent. */
  lemma TogglePracticeTwice(data: Assessment, id: string, practice: string)
    requires id in data
    ensures var r := TogglePractice(TogglePractice(data, id, practice), id, practice);
      && r.Keys == data.Keys
      && (forall other :: other in data && other != id ==> r[other] == data[other])
      && (forall q :: q in r[id].selectedPractices <==> q in data[id].selectedPractices)
      && (practice !in data[id].selectedPractices ==> r == data)
  {
    ToggleTwiceMembership(data[id].selectedPractices, practice);
    if practice !in data[id].selectedPractices {
      ToggleTwiceRestores(data[id].selectedPractices, practice);
      var r := TogglePractice(TogglePractice(data, id, practice), id, practice);
      assert r[id] == data[id];
    }
  }

  /**
   * The records of a fresh store are independent copies: changing one pillar after
   * initialisation leaves every other pillar at the default record.
   */
  lemma FreshRecordsIndependent(id: string, value: int, field: Field, practice: string)
    requires id in Catalog.CatalogIds()
    ensures forall other :: other in Catalog.CatalogIds() && other != id ==>
      && Update(Catalog.InitialStore(), id, value, field)[other] == Catalog.InitialPillarData
      && TogglePractice(Catalog.InitialStore(), id, practice)[other] == Catalog.InitialPillarData
  {
  }
}
