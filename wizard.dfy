// The wizard of App.tsx: a session holding the current step (0 landing, 1 current
// scores, 2 target scores, 3 importance, 4 practices, 5 results) and the assessment
// store. Each method is one button or input handler; a method whose button is not
// rendered at the current step reports `shown == false` and changes nothing.
module Wizard {
  import opened Types
  import Catalog
  import Store
  import Engine

  const LandingStep := 0
  const PracticesStep := 4
  const ResultsStep := 5

  /** The store field that the range inputs of a scoring step write (App.tsx, renderStep). */
  function FieldOf(step: int): (f: Field)
    requires 1 <= step <= 3
    ensures step == 1 <==> f == Score2025
    ensures step == 2 <==> f == Score2026
    ensures step == 3 <==> f == Importance
  {
    if step == 1 then Score2025 else if step == 2 then Score2026 else Importance
  }

  class Session {
    var step: int
    var data: Assessment

    /** The step is one of the six screens, and the store has exactly one record per catalog pillar. */
    ghost predicate Valid()
      reads this
    {
      LandingStep <= step <= ResultsStep && data.Keys == Catalog.CatalogIds()
    }

    /** `useState(0)` and `useState(getInitialData())`. */
    constructor ()
      ensures Valid() && step == LandingStep && data == Catalog.InitialStore()
    {
      var initial := Catalog.GetInitialData();
      step := LandingStep;
      data := initial;
    }

    /** The landing screen's start button: `setStep(1)`. */
    method Start() returns (shown: bool)
      requires Valid()
      modifies this
      ensures Valid()
      ensures shown == (old(step) == LandingStep)
      ensures step == (if shown then 1 else old(step)) && data == old(data)
    {
      shown := step == LandingStep;
      if shown {
        step := 1;
      }
    }

    /** The footer's back button, rendered while 0 < step < 5: `setStep(s => s - 1)`. */
    method Back() returns (shown: bool)
      requires Valid()
      modifies this
      ensures Valid()
      ensures shown == (LandingStep < old(step) < ResultsStep)
      ensures step == (if shown then old(step) - 1 else old(step)) && data == old(data)
    {
      shown := LandingStep < step < ResultsStep;
      if shown {
        step := step - 1;
      }
    }

    /** The footer's next button ("Ver Resultados" on step 4): `setStep(s => s + 1)`. */
    method Next() returns (shown: bool)
      requires Valid()
      modifies this
      ensures Valid()
      ensures shown == (LandingStep < old(step) < ResultsStep)
      ensures step == (if shown then old(step) + 1 else old(step)) && data == old(data)
    {
      shown := LandingStep < step < ResultsStep;
      if shown {
        step := step + 1;
      }
    }

    /**
     * handleReset, from the navigation bar rendered while step > 0. `confirmed` is
     * the user's answer to the confirmation dialog.
     */
    method Reset(confirmed: bool) returns (shown: bool)
      requires Valid()
      modifies this
      ensures Valid()
      ensures shown == (old(step) > LandingStep)
      ensures if shown && confirmed then step == LandingStep && data == Catalog.InitialStore()
              else step == old(step) && data == old(data)
    {
      shown := step > LandingStep;
      if shown && confirmed {
        data := Catalog.GetInitialData();
        step := LandingStep;
      }
    }

    /** A range input of steps 1-3: handleUpdate(id, value, field) with the step's field. */
    method Slide(id: string, value: int) returns (shown: bool)
      requires Valid() && id in Catalog.CatalogIds()
      modifies this
      ensures Valid()
      ensures shown == (1 <= old(step) <= 3)
      ensures step == old(step)
      ensures data == if shown then Store.Update(old(data), id, value, FieldOf(old(step))) else old(data)
    {
      shown := 1 <= step <= 3;
      if shown {
        data := Store.Update(data, id, value, FieldOf(step));
      }
    }

    /** A practice card of step 4: handleTogglePractice(id, practice). */
    method Toggle(id: string, practice: string) returns (shown: bool)
      requires Valid() && id in Catalog.CatalogIds()
      modifies this
      ensures Valid()
      ensures shown == (old(step) == PracticesStep)
      ensures step == old(step)
      ensures data == if shown then Store.TogglePractice(old(data), id, practice) else old(data)
    {
      shown := step == PracticesStep;
      if shown {
        data := Store.TogglePractice(data, id, practice);
      }
    }

    /** The results screen, rendered only at step 5, runs calculatePriorities afresh. */
    method Results() returns (shown: bool, ranking: seq<ProcessedPillar>)
      requires Valid()
      ensures shown == (step == ResultsStep)
      ensures shown ==> ranking == Engine.Priorities(Catalog.Pillars, data)
      ensures !shown ==> ranking == []
    {
      shown := step == ResultsStep;
      ranking := [];
      if shown {
        assert Engine.Covers(Catalog.Pillars, data);
        ranking := Engine.CalculatePriorities(Catalog.Pillars, data);
      }
    }
  }
}
