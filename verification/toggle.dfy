/**
 * `handleToggleTask`: completing or un-completing one generated task.
 *
 * Completing a pending task adds its key to the ledger and moves the owning
 * plant's last-done field for that kind of care to the task's due date, but
 * only when that is not on an earlier day than the recorded one.
 * Un-completing removes the key from the ledger and leaves the plants alone.
 */
module Toggle {
  import opened Dates
  import opened Types
  import opened Ledger
  import opened Generator
  import opened Optional

  /** The part of the application state the toggle reads and writes. */
  datatype Schedule = Schedule(plants: seq<Plant>, ledger: Ledger)

  /** `tasks.find(t => t.id === taskId)`: the first task carrying the key, if any. */
  function FindTask(tasks: seq<CareTask>, key: TaskKey): (r: Option<CareTask>)
    ensures r.None? <==> forall t :: t in tasks ==> t.id != key
    ensures r.Some? ==> exists i :: 0 <= i < |tasks| && tasks[i] == r.value && r.value.id == key
                          && forall j :: 0 <= j < i ==> tasks[j].id != key
  {
    if tasks == [] then None
    else if tasks[0].id == key then Some(tasks[0])
    else
      var r := FindTask(tasks[1..], key);
      assert forall i :: 0 <= i < |tasks| - 1 ==> tasks[1..][i] == tasks[i + 1];
      assert tasks == [tasks[0]] + tasks[1..];
      r
  }

  /**
   * The plant update of one completion, as the application compares instants.
   * On day numbers: a plant with the task's plant id whose recorded day is not
   * later than the due day gets the due date; any other plant is unchanged.
   */
  function Advance(p: Plant, task: CareTask): (r: Plant)
    ensures r == if p.id == task.plantId && task.dueDay >= DayOf(p.LastDone(task.kind))
                 then p.WithLastDone(task.kind, DayStart(task.dueDay))
                 else p
  {
    if p.id == task.plantId then
      var tDate := DayStart(task.dueDay);
      var currentLast := p.LastDone(task.kind);
      AfterOrSameDay(task.dueDay, currentLast);
      if IsAfter(tDate, currentLast) || IsSameDay(tDate, currentLast) then p.WithLastDone(task.kind, tDate) else p
    else p
  }

  /**
   * What completing `t` does to the plants, on day numbers: a plant with the
   * task's plant id whose recorded day for the task's kind is not later than
   * the due day gets that field set to the due date; every other plant, and
   * every other field, is left as it was.
   */
  ghost predicate AdvancedPlants(before: seq<Plant>, after: seq<Plant>, t: CareTask)
  {
    && |after| == |before|
    && forall j :: 0 <= j < |before| ==>
         after[j] == (if before[j].id == t.plantId && t.dueDay >= DayOf(before[j].LastDone(t.kind))
                      then before[j].WithLastDone(t.kind, DayStart(t.dueDay))
                      else before[j])
  }

  /** The toggle over an explicit task list (the one the calendar was showing). */
  function ToggleTask(s: Schedule, tasks: seq<CareTask>, key: TaskKey): (r: Schedule)
    ensures FindTask(tasks, key).None? ==> r == s
    ensures FindTask(tasks, key).Some? && !FindTask(tasks, key).value.completed ==>
              r.ledger == Add(s.ledger, key) && AdvancedPlants(s.plants, r.plants, FindTask(tasks, key).value)
    ensures FindTask(tasks, key).Some? && FindTask(tasks, key).value.completed ==>
              r.ledger == Delete(s.ledger, key) && r.plants == s.plants
  {
    match FindTask(tasks, key)
    case None => s
    case Some(t) =>
      if !t.completed then
        var plants := seq(|s.plants|, j requires 0 <= j < |s.plants| => Advance(s.plants[j], t));
        Schedule(plants, Add(s.ledger, key))
      else
        Schedule(s.plants, Delete(s.ledger, key))
  }

  /**
   * The toggle as the application runs it: over the task list generated from
   * the current state.  The registry keeps its length, the ledger stays
   * duplicate-free, and a key already in the ledger belongs to a completed
   * task, so toggling it never touches the plants.
   */
  function ToggleNow(s: Schedule, now: Instant, key: TaskKey): (r: Schedule)
    ensures |r.plants| == |s.plants|
    ensures NoDup(s.ledger) ==> NoDup(r.ledger)
    ensures Has(s.ledger, key) ==> r.plants == s.plants
  {
    var tasks := GenerateTasks(s.plants, s.ledger, now);
    GeneratedTaskShape(s.plants, s.ledger, now);
    assert FindTask(tasks, key).Some? ==> FindTask(tasks, key).value in tasks;
    ToggleTask(s, tasks, key)
  }

  /**
   * A toggle never moves a last-done date to an earlier day, and never
   * changes a plant's identity, name, species, cadences, image or notes.
   */
  lemma ToggleKeepsAnchorsMonotone(s: Schedule, tasks: seq<CareTask>, key: TaskKey)
    ensures var r := ToggleTask(s, tasks, key);
            && |r.plants| == |s.plants|
            && forall j, kind :: 0 <= j < |s.plants| ==>
                 && DayOf(r.plants[j].LastDone(kind)) >= DayOf(s.plants[j].LastDone(kind))
                 && r.plants[j].id == s.plants[j].id && r.plants[j].name == s.plants[j].name
                 && r.plants[j].Frequency(kind) == s.plants[j].Frequency(kind)
  {
  }

  /**
   * A task due before today whose key is not in the ledger is completed
   * without being in the ledger, so toggling it changes nothing at all.
   */
  lemma TogglePastDueIsNoOp(s: Schedule, now: Instant, key: TaskKey)
    requires key.day < Today(now) && !Has(s.ledger, key)
    ensures ToggleNow(s, now, key) == s
  {
    var tasks := GenerateTasks(s.plants, s.ledger, now);
    GeneratedTaskShape(s.plants, s.ledger, now);
    match FindTask(tasks, key)
    case None =>
    case Some(t) =>
      assert t in tasks;
  }

  /**
   * After a pending task is completed, the regenerated list still holds a task
   * with the same key, and every task with that key is completed.
   */
  lemma CompletedTaskRegenerates(s: Schedule, now: Instant, key: TaskKey)
    requires FindTask(GenerateTasks(s.plants, s.ledger, now), key).Some?
    requires !FindTask(GenerateTasks(s.plants, s.ledger, now), key).value.completed
    ensures var after := ToggleNow(s, now, key);
            var tasks := GenerateTasks(after.plants, after.ledger, now);
            && (exists t :: t in tasks && t.id == key)
            && forall t :: t in tasks && t.id == key ==> t.completed
  {
    var before := GenerateTasks(s.plants, s.ledger, now);
    var t := FindTask(before, key).value;
    var r := ToggleNow(s, now, key);
    var today := Today(now);
    assert r.ledger == Add(s.ledger, key) && AdvancedPlants(s.plants, r.plants, t);
    var j, kind, i := SourceCycle(s.plants, s.ledger, now, t);
    var t' := ExpectedTask(r.plants[j], kind, t.dueDay, r.ledger, today);
    assert t' in GenerateTasks(r.plants, r.ledger, now) by {
      var p := r.plants[j];
      if p == s.plants[j] {
        assert Occurrence(p, kind, i) == t.dueDay;
        GenerateComplete(r.plants, r.ledger, now);
        assert ExpectedTask(r.plants[j], kind, Occurrence(r.plants[j], kind, i), r.ledger, today)
                 in GenerateTasks(r.plants, r.ledger, now);
      } else {
        assert p == s.plants[j].WithLastDone(t.kind, DayStart(t.dueDay));
        assert Occurrence(p, kind, 0) == t.dueDay;
        GenerateComplete(r.plants, r.ledger, now);
        assert ExpectedTask(r.plants[j], kind, Occurrence(r.plants[j], kind, 0), r.ledger, today)
                 in GenerateTasks(r.plants, r.ledger, now);
      }
    }
    assert t'.id == key;
    GeneratedTaskShape(r.plants, r.ledger, now);
  }

  /** The plant and cycle a generated task comes from. */
  lemma SourceCycle(plants: seq<Plant>, ledger: Ledger, now: Instant, t: CareTask)
      returns (j: int, kind: TaskKind, i: int)
    requires t in GenerateTasks(plants, ledger, now)
    ensures 0 <= j < |plants| && FirstCycle <= i < EndCycle
    ensures InWindowDay(Occurrence(plants[j], kind, i), Today(now))
    ensures t == ExpectedTask(plants[j], kind, Occurrence(plants[j], kind, i), ledger, Today(now))
  {
    GenerateSound(plants, ledger, now);
    j, kind :| 0 <= j < |plants| && Scheduled(plants[j], kind, t, ledger, Today(now));
    i :| FirstCycle <= i < EndCycle && InWindowDay(Occurrence(plants[j], kind, i), Today(now))
         && t == ExpectedTask(plants[j], kind, Occurrence(plants[j], kind, i), ledger, Today(now));
  }

  /**
   * Completing a pending task and then toggling it again restores the ledger
   * exactly, while the advanced last-done date stays: un-completing is a
   * ledger-only operation.
   */
  lemma ToggleTwiceRestoresLedger(s: Schedule, now: Instant, key: TaskKey)
    requires NoDup(s.ledger)
    requires FindTask(GenerateTasks(s.plants, s.ledger, now), key).Some?
    requires !FindTask(GenerateTasks(s.plants, s.ledger, now), key).value.completed
    ensures var once := ToggleNow(s, now, key);
            var twice := ToggleNow(once, now, key);
            twice.ledger == s.ledger && twice.plants == once.plants
  {
    var before := GenerateTasks(s.plants, s.ledger, now);
    GeneratedTaskShape(s.plants, s.ledger, now);
    assert !Has(s.ledger, key);
    var once := ToggleNow(s, now, key);
    CompletedTaskRegenerates(s, now, key);
    var after := GenerateTasks(once.plants, once.ledger, now);
    assert FindTask(after, key).Some?;
    assert FindTask(after, key).value in after;
    DeleteUndoesAdd(s.ledger, key);
  }
}
