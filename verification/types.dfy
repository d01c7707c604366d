/**
 * The records of types.ts: the two task kinds, a plant and a generated care
 * task.  Dates are instants (plants) or day numbers (tasks, whose due date is
 * always a midnight).  A task's identity is a structured key instead of the
 * concatenated string the application builds.
 */
module Types {
  import opened Dates

  datatype TaskKind = Watering | Fertilization

  datatype Plant = Plant(
    id: string,
    name: string,
    species: string,
    wateringFrequency: int,
    fertilizationFrequency: int,
    lastWatered: Instant,
    lastFertilized: Instant,
    image: string,
    notes: string)
  {
    /** The cadence, in days, of one kind of care. */
    function Frequency(kind: TaskKind): int
    {
      if kind == Watering then wateringFrequency else fertilizationFrequency
    }

    /** The field recording when one kind of care was last done. */
    function LastDone(kind: TaskKind): Instant
    {
      if kind == Watering then lastWatered else lastFertilized
    }

    /** The plant with one last-done field replaced and everything else kept. */
    function WithLastDone(kind: TaskKind, t: Instant): (p: Plant)
      ensures p.LastDone(kind) == t
      ensures forall other :: other != kind ==> p.LastDone(other) == LastDone(other)
      ensures p.id == id && p.name == name && p.species == species
      ensures p.image == image && p.notes == notes
      ensures forall k :: p.Frequency(k) == Frequency(k)
    {
      if kind == Watering then this.(lastWatered := t) else this.(lastFertilized := t)
    }
  }

  /** Identity of a task occurrence: (kind, owning plant, due day). */
  datatype TaskKey = TaskKey(kind: TaskKind, plantId: string, day: Day)

  datatype CareTask = CareTask(
    id: TaskKey,
    plantId: string,
    plantName: string,
    kind: TaskKind,
    dueDay: Day,
    completed: bool)
}
