/**
 * The recurring-task generator (the `tasks` memo of App.tsx).
 *
 * For every plant, and for watering and then fertilization, the last-done
 * instant is normalised to its midnight (the anchor) and candidate due dates
 * `anchor + i * frequency` days are produced for the fixed cycle range
 * -10 <= i < 25.  Candidates strictly after `today - 30` and strictly before
 * `today + 60` become tasks; a task is completed when its key is in the ledger
 * or its due date is on an earlier day than today.
 *
 * `GenerateTasks` follows the code, comparing instants with the date-fns
 * predicates.  `Occurrence`, `InWindowDay` and `ExpectedTask` restate the same
 * schedule on day numbers, and the lemmas below connect the two.
 */
module Generator {
  import opened Dates
  import opened Types
  import opened Ledger

  const FirstCycle: int := -10
  const EndCycle: int := 25
  const CyclesPerKind: int := EndCycle - FirstCycle
  const PastWindowDays: int := 30
  const FutureWindowDays: int := 60

  // ---------------------------------------------------------------------------
  // The generator as written, on instants
  // ---------------------------------------------------------------------------

  /** The window test: strictly after `today - 30` days and strictly before `today + 60` days. */
  predicate InWindow(tDate: Instant, today: Instant)
  {
    IsAfter(tDate, AddDays(today, -PastWindowDays)) && IsBefore(tDate, AddDays(today, FutureWindowDays))
  }

  /** The record pushed for one retained candidate. */
  function CreateTask(kind: TaskKind, p: Plant, tDate: Instant, ledger: Ledger, today: Instant): CareTask
  {
    var key := TaskKey(kind, p.id, DayOf(tDate));
    CareTask(key, p.id, p.name, kind, DayOf(tDate),
             Has(ledger, key) || (IsBefore(tDate, today) && !IsSameDay(tDate, today)))
  }

  /** `createTypeTasks`, from cycle `i` to the end of the cycle range. */
  function TypeTasks(kind: TaskKind, p: Plant, ledger: Ledger, today: Instant, i: int): (r: seq<CareTask>)
    ensures |r| <= if i < EndCycle then EndCycle - i else 0
    ensures forall t :: t in r ==> t.kind == kind && t.plantId == p.id && t.plantName == p.name
    decreases EndCycle - i
  {
    if i >= EndCycle then []
    else
      var tDate := AddDays(StartOfDay(p.LastDone(kind)), i * p.Frequency(kind));
      var rest := TypeTasks(kind, p, ledger, today, i + 1);
      if InWindow(tDate, today) then [CreateTask(kind, p, tDate, ledger, today)] + rest else rest
  }

  /** The tasks of one plant: its watering tasks, then its fertilization tasks. */
  function PlantTasks(p: Plant, ledger: Ledger, now: Instant): (r: seq<CareTask>)
    ensures |r| <= 2 * CyclesPerKind
    ensures forall t :: t in r ==> t.plantId == p.id && t.plantName == p.name
  {
    var today := StartOfDay(now);
    TypeTasks(Watering, p, ledger, today, FirstCycle) + TypeTasks(Fertilization, p, ledger, today, FirstCycle)
  }

  /** The whole task list, plant by plant in registry order. */
  function GenerateTasks(plants: seq<Plant>, ledger: Ledger, now: Instant): (r: seq<CareTask>)
    ensures plants == [] ==> r == []
    ensures forall t :: t in r ==> exists p :: p in plants && t.plantId == p.id && t.plantName == p.name
  {
    if plants == [] then []
    else
      var rest := GenerateTasks(plants[1..], ledger, now);
      var head := PlantTasks(plants[0], ledger, now);
      assert forall p :: p in plants[1..] ==> p in plants;
      head + rest
  }

  // ---------------------------------------------------------------------------
  // The same schedule on day numbers
  // ---------------------------------------------------------------------------

  function Today(now: Instant): Day
  {
    DayOf(now)
  }

  /** The due day of cycle `i` of one kind of care. */
  function Occurrence(p: Plant, kind: TaskKind, i: int): Day
  {
    DayOf(p.LastDone(kind)) + i * p.Frequency(kind)
  }

  predicate InWindowDay(d: Day, today: Day)
  {
    today - PastWindowDays < d < today + FutureWindowDays
  }

  /** The task that a due day `d` of a plant should produce. */
  function ExpectedTask(p: Plant, kind: TaskKind, d: Day, ledger: Ledger, today: Day): CareTask
  {
    var key := TaskKey(kind, p.id, d);
    CareTask(key, p.id, p.name, kind, d, Has(ledger, key) || d < today)
  }

  /** `t` is the task of some cycle of the range whose due day lies in the window. */
  predicate Scheduled(p: Plant, kind: TaskKind, t: CareTask, ledger: Ledger, today: Day)
  {
    exists i :: FirstCycle <= i < EndCycle && InWindowDay(Occurrence(p, kind, i), today)
                && t == ExpectedTask(p, kind, Occurrence(p, kind, i), ledger, today)
  }

  // ---------------------------------------------------------------------------
  // Lemmas
  // ---------------------------------------------------------------------------

  /** One step of the loop: the instant computations agree with the day-number schedule. */
  lemma StepAgrees(kind: TaskKind, p: Plant, ledger: Ledger, now: Instant, i: int)
    ensures var tDate := AddDays(StartOfDay(p.LastDone(kind)), i * p.Frequency(kind));
            && tDate == DayStart(Occurrence(p, kind, i))
            && (InWindow(tDate, StartOfDay(now)) <==> InWindowDay(Occurrence(p, kind, i), Today(now)))
            && CreateTask(kind, p, tDate, ledger, StartOfDay(now))
               == ExpectedTask(p, kind, Occurrence(p, kind, i), ledger, Today(now))
  {
    var d := Occurrence(p, kind, i);
    var today := StartOfDay(now);
    var tDate := AddDays(StartOfDay(p.LastDone(kind)), i * p.Frequency(kind));
    assert tDate == DayStart(d);
    assert AddDays(today, -PastWindowDays) == DayStart(Today(now) - PastWindowDays);
    assert AddDays(today, FutureWindowDays) == DayStart(Today(now) + FutureWindowDays);
    assert today == DayStart(Today(now));
    MidnightOrder(d, Today(now) - PastWindowDays);
    MidnightOrder(d, Today(now) + FutureWindowDays);
    MidnightOrder(d, Today(now));
  }

  lemma OccurrenceStep(p: Plant, kind: TaskKind, i: int)
    ensures Occurrence(p, kind, i + 1) == Occurrence(p, kind, i) + p.Frequency(kind)
  {
    assert (i + 1) * p.Frequency(kind) == i * p.Frequency(kind) + p.Frequency(kind);
  }

  /** Every generated task of one kind comes from a cycle of the range inside the window. */
  lemma {:induction false} TypeTasksSound(kind: TaskKind, p: Plant, ledger: Ledger, now: Instant, i: int)
    ensures forall t :: t in TypeTasks(kind, p, ledger, StartOfDay(now), i) ==>
              exists j :: i <= j < EndCycle && InWindowDay(Occurrence(p, kind, j), Today(now))
                          && t == ExpectedTask(p, kind, Occurrence(p, kind, j), ledger, Today(now))
    decreases EndCycle - i
  {
    if i < EndCycle {
      StepAgrees(kind, p, ledger, now, i);
      TypeTasksSound(kind, p, ledger, now, i + 1);
    }
  }

  /** Every cycle of the range whose due day is inside the window yields its task. */
  lemma {:induction false} TypeTasksComplete(kind: TaskKind, p: Plant, ledger: Ledger, now: Instant, i: int)
    ensures forall j :: i <= j < EndCycle && InWindowDay(Occurrence(p, kind, j), Today(now)) ==>
              ExpectedTask(p, kind, Occurrence(p, kind, j), ledger, Today(now))
                in TypeTasks(kind, p, ledger, StartOfDay(now), i)
    decreases EndCycle - i
  {
    if i < EndCycle {
      StepAgrees(kind, p, ledger, now, i);
      TypeTasksComplete(kind, p, ledger, now, i + 1);
    }
  }

  /**
   * With a cadence of at least one day, the tasks of one kind come out in
   * strictly increasing due-day order, hence with pairwise distinct days, and
   * none is earlier than the cycle the loop starts from.
   */
  lemma {:induction false} TypeTasksAscending(kind: TaskKind, p: Plant, ledger: Ledger, now: Instant, i: int)
    requires p.Frequency(kind) >= 1
    ensures var r := TypeTasks(kind, p, ledger, StartOfDay(now), i);
            && (forall a, b :: 0 <= a < b < |r| ==> r[a].dueDay < r[b].dueDay)
            && (forall t :: t in r ==> Occurrence(p, kind, i) <= t.dueDay)
    decreases EndCycle - i
  {
    if i < EndCycle {
      StepAgrees(kind, p, ledger, now, i);
      OccurrenceStep(p, kind, i);
      TypeTasksAscending(kind, p, ledger, now, i + 1);
    }
  }

  /** Watering tasks precede fertilization tasks within one plant's tasks; at most 35 of each. */
  lemma PlantTasksOrder(p: Plant, ledger: Ledger, now: Instant)
    ensures var r := PlantTasks(p, ledger, now);
            && |r| <= 2 * CyclesPerKind
            && forall a, b :: 0 <= a < b < |r| && r[b].kind == Watering ==> r[a].kind == Watering
  {
    var w := TypeTasks(Watering, p, ledger, StartOfDay(now), FirstCycle);
    var f := TypeTasks(Fertilization, p, ledger, StartOfDay(now), FirstCycle);
    var r := w + f;
    forall a, b | 0 <= a < b < |r| && r[b].kind == Watering
      ensures r[a].kind == Watering
    {
      assert b < |w| by {
        if b >= |w| {
          assert false;
        }
      }
      assert r[a] == w[a];
    }
  }

  /** Concatenating registries concatenates their task lists: plants keep their order. */
  lemma {:induction false} GenerateAppend(ps1: seq<Plant>, ps2: seq<Plant>, ledger: Ledger, now: Instant)
    ensures GenerateTasks(ps1 + ps2, ledger, now) == GenerateTasks(ps1, ledger, now) + GenerateTasks(ps2, ledger, now)
  {
    if ps1 == [] {
      assert ps1 + ps2 == ps2;
    } else {
      assert (ps1 + ps2)[1..] == ps1[1..] + ps2;
      GenerateAppend(ps1[1..], ps2, ledger, now);
    }
  }

  /** Every generated task is a scheduled occurrence of some plant in the registry. */
  lemma {:induction false} GenerateSound(plants: seq<Plant>, ledger: Ledger, now: Instant)
    ensures forall t :: t in GenerateTasks(plants, ledger, now) ==>
              exists j, kind :: 0 <= j < |plants| && Scheduled(plants[j], kind, t, ledger, Today(now))
  {
    if plants != [] {
      var today := StartOfDay(now);
      TypeTasksSound(Watering, plants[0], ledger, now, FirstCycle);
      TypeTasksSound(Fertilization, plants[0], ledger, now, FirstCycle);
      GenerateSound(plants[1..], ledger, now);
      forall t | t in GenerateTasks(plants, ledger, now)
        ensures exists j, kind :: 0 <= j < |plants| && Scheduled(plants[j], kind, t, ledger, Today(now))
      {
        if t in TypeTasks(Watering, plants[0], ledger, today, FirstCycle) {
          assert Scheduled(plants[0], Watering, t, ledger, Today(now));
        } else if t in TypeTasks(Fertilization, plants[0], ledger, today, FirstCycle) {
          assert Scheduled(plants[0], Fertilization, t, ledger, Today(now));
        } else {
          assert t in GenerateTasks(plants[1..], ledger, now);
          var j, kind :| 0 <= j < |plants[1..]| && Scheduled(plants[1..][j], kind, t, ledger, Today(now));
          assert plants[1..][j] == plants[j + 1];
        }
      }
    }
  }

  /** Every in-window occurrence of every plant in the registry is generated. */
  lemma {:induction false} GenerateComplete(plants: seq<Plant>, ledger: Ledger, now: Instant)
    ensures forall j, kind, i ::
              (0 <= j < |plants| && FirstCycle <= i < EndCycle
               && InWindowDay(Occurrence(plants[j], kind, i), Today(now))) ==>
              ExpectedTask(plants[j], kind, Occurrence(plants[j], kind, i), ledger, Today(now))
                in GenerateTasks(plants, ledger, now)
  {
    if plants != [] {
      TypeTasksComplete(Watering, plants[0], ledger, now, FirstCycle);
      TypeTasksComplete(Fertilization, plants[0], ledger, now, FirstCycle);
      GenerateComplete(plants[1..], ledger, now);
      var head := PlantTasks(plants[0], ledger, now);
      var tail := GenerateTasks(plants[1..], ledger, now);
      assert GenerateTasks(plants, ledger, now) == head + tail;
      forall j, kind, i | 0 <= j < |plants| && FirstCycle <= i < EndCycle
          && InWindowDay(Occurrence(plants[j], kind, i), Today(now))
        ensures ExpectedTask(plants[j], kind, Occurrence(plants[j], kind, i), ledger, Today(now))
                  in GenerateTasks(plants, ledger, now)
      {
        var t := ExpectedTask(plants[j], kind, Occurrence(plants[j], kind, i), ledger, Today(now));
        if j > 0 {
          assert plants[j] == plants[1..][j - 1];
          assert t in tail;
        } else {
          assert t in head;
        }
      }
    }
  }

  /**
   * Window, identity and completion of every generated task: the due day lies
   * strictly between today - 30 and today + 60, the id is (kind, plant id,
   * due day), and the task is completed exactly when its id is in the ledger
   * or it is due on a day before today.
   */
  lemma GeneratedTaskShape(plants: seq<Plant>, ledger: Ledger, now: Instant)
    ensures forall t :: t in GenerateTasks(plants, ledger, now) ==>
              && Today(now) - PastWindowDays < t.dueDay < Today(now) + FutureWindowDays
              && t.id == TaskKey(t.kind, t.plantId, t.dueDay)
              && (t.completed <==> Has(ledger, t.id) || t.dueDay < Today(now))
  {
    GenerateSound(plants, ledger, now);
  }

  /** A task due today whose key is not in the ledger is pending. */
  lemma DueTodayIsPending(plants: seq<Plant>, ledger: Ledger, now: Instant, t: CareTask)
    requires t in GenerateTasks(plants, ledger, now)
    requires t.dueDay == Today(now) && !Has(ledger, t.id)
    ensures !t.completed
  {
    GeneratedTaskShape(plants, ledger, now);
  }

  /**
   * The cycle range is fixed, not derived from the window: with a daily
   * cadence anchored today, no watering task is generated 25 or more days
   * ahead although the window reaches 59 days ahead.
   */
  lemma DailyCadenceStopsShortOfWindow(p: Plant, ledger: Ledger, now: Instant)
    requires p.wateringFrequency == 1 && DayOf(p.lastWatered) == Today(now)
    ensures InWindowDay(Today(now) + FutureWindowDays - 1, Today(now))
    ensures forall t :: t in GenerateTasks([p], ledger, now) && t.kind == Watering ==>
              t.dueDay < Today(now) + EndCycle
  {
    DailyWateringBound(p, ledger, now);
    SinglePlantKind(p, ledger, now, Watering);
  }

  /** With a daily cadence anchored today, every watering task falls before day today + 25. */
  lemma DailyWateringBound(p: Plant, ledger: Ledger, now: Instant)
    requires p.wateringFrequency == 1 && DayOf(p.lastWatered) == Today(now)
    ensures forall t :: t in TypeTasks(Watering, p, ledger, StartOfDay(now), FirstCycle) ==>
              t.dueDay < Today(now) + EndCycle
  {
    TypeTasksSound(Watering, p, ledger, now, FirstCycle);
    forall j ensures Occurrence(p, Watering, j) == Today(now) + j {
    }
  }

  /** For a registry of one plant, the tasks of one kind are that kind's list. */
  lemma SinglePlantKind(p: Plant, ledger: Ledger, now: Instant, kind: TaskKind)
    ensures forall t :: t in GenerateTasks([p], ledger, now) && t.kind == kind ==>
              t in TypeTasks(kind, p, ledger, StartOfDay(now), FirstCycle)
  {
    var today := StartOfDay(now);
    assert [p][1..] == [];
    assert GenerateTasks([p], ledger, now)
           == TypeTasks(Watering, p, ledger, today, FirstCycle) + TypeTasks(Fertilization, p, ledger, today, FirstCycle);
  }
}
