/**
 * The new-plant form (AddPlantModal): its defaults and the record it submits.
 *
 * The form asks in how many days care should start; the submitted last-done
 * dates are back-dated by one cadence from that day, so that the generator's
 * first forward cycle lands exactly on it.  The registry assigns the id.
 */
module AddPlant {
  import opened Dates
  import opened Types
  import opened Ledger
  import opened Generator

  datatype PlantForm = PlantForm(
    name: string,
    species: string,
    wateringFrequency: int,
    fertilizationFrequency: int,
    startInDays: int,
    image: string,
    notes: string)

  /** The form as it opens. */
  const InitialForm: PlantForm := PlantForm("", "", 3, 30, 0, "", "")

  const DefaultImage: string :=
    "https://images.unsplash.com/photo-1545239351-ef056c0b011a?q=80&w=400&auto=format&fit=crop"

  /** A plant record without its id. */
  datatype NewPlant = NewPlant(
    name: string,
    species: string,
    wateringFrequency: int,
    fertilizationFrequency: int,
    lastWatered: Instant,
    lastFertilized: Instant,
    image: string,
    notes: string)

  /** The bounds the form's inputs declare; nothing enforces them when the value is parsed. */
  predicate DeclaredBounds(f: PlantForm)
  {
    f.wateringFrequency >= 1 && f.fertilizationFrequency >= 1 && f.startInDays >= 0
  }

  /** `handleSubmit`: the record handed to the registry. */
  function Submit(f: PlantForm, now: Instant): (d: NewPlant)
    ensures DayOf(d.lastWatered) == DayOf(now) + f.startInDays - f.wateringFrequency
    ensures DayOf(d.lastFertilized) == DayOf(now) + f.startInDays - f.fertilizationFrequency
    ensures d.lastWatered - StartOfDay(d.lastWatered) == now - StartOfDay(now)
    ensures d.lastFertilized - StartOfDay(d.lastFertilized) == now - StartOfDay(now)
    ensures d.image != ""
    ensures f.image != "" ==> d.image == f.image
    ensures f.image == "" ==> d.image == DefaultImage
    ensures d.name == f.name && d.species == f.species && d.notes == f.notes
    ensures d.wateringFrequency == f.wateringFrequency && d.fertilizationFrequency == f.fertilizationFrequency
  {
    NewPlant(
      f.name, f.species, f.wateringFrequency, f.fertilizationFrequency,
      AddDays(now, f.startInDays - f.wateringFrequency),
      AddDays(now, f.startInDays - f.fertilizationFrequency),
      if f.image != "" then f.image else DefaultImage,
      f.notes)
  }

  function WithId(d: NewPlant, id: string): Plant
  {
    Plant(id, d.name, d.species, d.wateringFrequency, d.fertilizationFrequency,
          d.lastWatered, d.lastFertilized, d.image, d.notes)
  }

  /** `onAdd`: the new plant, with a fresh id, goes to the end of the registry. */
  function AddToRegistry(plants: seq<Plant>, d: NewPlant, freshId: string): (r: seq<Plant>)
    ensures |r| == |plants| + 1 && r[..|plants|] == plants
    ensures r[|plants|].id == freshId
    ensures r[|plants|].name == d.name && r[|plants|].species == d.species
    ensures r[|plants|].wateringFrequency == d.wateringFrequency
    ensures r[|plants|].fertilizationFrequency == d.fertilizationFrequency
    ensures r[|plants|].lastWatered == d.lastWatered && r[|plants|].lastFertilized == d.lastFertilized
    ensures r[|plants|].image == d.image && r[|plants|].notes == d.notes
  {
    plants + [WithId(d, freshId)]
  }

  /** The form opens with the declared bounds met: cadences 3 and 30 days, starting today. */
  lemma InitialFormMeetsBounds()
    ensures DeclaredBounds(InitialForm)
    ensures InitialForm.wateringFrequency == 3 && InitialForm.fertilizationFrequency == 30
    ensures InitialForm.startInDays == 0
  {
  }

  /** Cycle 1 of either kind of care falls `startInDays` days after the submission day. */
  lemma FirstCycleLandsOnStart(f: PlantForm, now: Instant, id: string, kind: TaskKind)
    ensures Occurrence(WithId(Submit(f, now), id), kind, 1) == DayOf(now) + f.startInDays
  {
  }

  /**
   * Adding the plant schedules, for each kind of care, a task on the start
   * day whenever that day is inside the window; it is pending unless its key
   * is already in the ledger or the start day is in the past.
   */
  lemma NewPlantScheduledOnStart(plants: seq<Plant>, ledger: Ledger, f: PlantForm, now: Instant,
                                 id: string, kind: TaskKind)
    requires -PastWindowDays < f.startInDays < FutureWindowDays
    ensures var day := Today(now) + f.startInDays;
            var key := TaskKey(kind, id, day);
            exists t :: t in GenerateTasks(AddToRegistry(plants, Submit(f, now), id), ledger, now)
                        && t.id == key && t.dueDay == day
                        && (t.completed <==> Has(ledger, key) || f.startInDays < 0)
  {
    var registry := AddToRegistry(plants, Submit(f, now), id);
    var p := registry[|plants|];
    var day := Today(now) + f.startInDays;
    assert Occurrence(p, kind, 1) == day by {
      FirstCycleLandsOnStart(f, now, id, kind);
      assert p == WithId(Submit(f, now), id);
    }
    var t := ExpectedTask(p, kind, Occurrence(p, kind, 1), ledger, Today(now));
    assert t in GenerateTasks(registry, ledger, now) by {
      GenerateComplete(registry, ledger, now);
    }
    assert t.id == TaskKey(kind, id, day) && t.dueDay == day;
  }
}
