/**
 * Export, import and reset of the application's persisted state
 * (`handleExportData`, `handleImportData`, `handleResetData`).
 *
 * The backup is a record whose fields may each be missing; parsing the JSON
 * text is outside the model, and a text that does not parse, or parses to
 * `null`, is `None`.
 */
module Backup {
  import opened Dates
  import opened Types
  import opened Ledger
  import opened Optional
  import opened Generator

  datatype Profile = Profile(name: string, email: string, age: string)

  datatype AppState = AppState(plants: seq<Plant>, ledger: Ledger, profile: Profile, notes: string)

  /**
   * A truthy `completedTaskIds` value: an array of keys, or a value that
   * `new Set` cannot iterate (an object, a number, `true`).
   */
  datatype KeysField = Keys(keys: seq<TaskKey>) | NotIterable

  /** The exported document `{plants, completedTaskIds, userProfile, globalNotes, exportedAt}`. */
  datatype BackupFile = BackupFile(
    plants: Option<seq<Plant>>,
    completedTaskIds: Option<KeysField>,
    userProfile: Option<Profile>,
    globalNotes: Option<string>,
    exportedAt: Option<Instant>)

  /**
   * Imported; well-formed but lacking a required field, so ignored; or the
   * error alert, raised when the text does not parse or while applying it.
   */
  datatype ImportOutcome = Imported | Ignored | Unreadable

  datatype ImportResult = ImportResult(state: AppState, outcome: ImportOutcome)

  /** JavaScript truthiness of an optional string: present and non-empty. */
  predicate TruthyText(s: Option<string>)
  {
    s.Some? && s.value != ""
  }

  /** The exported document carries every field, so importing it is never ignored. */
  function Export(s: AppState, now: Instant): (r: BackupFile)
    ensures r.exportedAt == Some(now)
    ensures forall target :: Import(target, Some(r)).outcome == Imported
  {
    BackupFile(Some(s.plants), Some(Keys(s.ledger)), Some(s.profile), Some(s.notes), Some(now))
  }

  /**
   * Import replaces plants and ledger only when both fields are present
   * (arrays, even empty ones, are truthy); the profile only when present and
   * the notes only when non-empty.  A missing field leaves the state
   * unchanged.  A `completedTaskIds` that cannot be iterated throws only after
   * the plants were replaced, so the error is reported over a partly applied
   * import.
   */
  function Import(s: AppState, parsed: Option<BackupFile>): (r: ImportResult)
    ensures parsed.None? ==> r == ImportResult(s, Unreadable)
    ensures parsed.Some? && (parsed.value.plants.None? || parsed.value.completedTaskIds.None?) ==>
              r == ImportResult(s, Ignored)
    ensures parsed.Some? && parsed.value.plants.Some? && parsed.value.completedTaskIds == Some(NotIterable) ==>
              r == ImportResult(s.(plants := parsed.value.plants.value), Unreadable)
    ensures r.outcome == Imported ==>
              && r.state.plants == parsed.value.plants.value
              && NoDup(r.state.ledger)
              && (forall k :: Has(r.state.ledger, k) <==> k in parsed.value.completedTaskIds.value.keys)
    ensures r.outcome == Imported ==>
              && r.state.profile == (if parsed.value.userProfile.Some? then parsed.value.userProfile.value
                                     else s.profile)
              && r.state.notes == (if TruthyText(parsed.value.globalNotes) then parsed.value.globalNotes.value
                                   else s.notes)
    ensures r.outcome == Imported <==>
              parsed.Some? && parsed.value.plants.Some? && parsed.value.completedTaskIds.Some?
              && parsed.value.completedTaskIds.value.Keys?
  {
    match parsed
    case None => ImportResult(s, Unreadable)
    case Some(data) =>
      if data.plants.Some? && data.completedTaskIds.Some? then
        match data.completedTaskIds.value
        case NotIterable => ImportResult(s.(plants := data.plants.value), Unreadable)
        case Keys(ids) =>
          var profile := if data.userProfile.Some? then data.userProfile.value else s.profile;
          var notes := if TruthyText(data.globalNotes) then data.globalNotes.value else s.notes;
          ImportResult(AppState(data.plants.value, FromArray(ids), profile, notes), Imported)
      else
        ImportResult(s, Ignored)
  }

  /**
   * Exporting a state and importing the document into any state restores the
   * plants, the ledger (in order) and the profile; the notes come back too
   * unless they were empty, in which case the importing state keeps its own.
   */
  lemma ExportImportRoundTrip(s: AppState, target: AppState, now: Instant)
    requires NoDup(s.ledger)
    ensures Import(target, Some(Export(s, now)))
            == ImportResult(AppState(s.plants, s.ledger, s.profile,
                                     if s.notes != "" then s.notes else target.notes), Imported)
  {
    FromArrayRoundTrip(s.ledger);
  }

  /** Importing an empty registry and ledger clears both. */
  lemma ImportEmptyClears(s: AppState)
    ensures var r := Import(s, Some(BackupFile(Some([]), Some(Keys([])), None, None, None)));
            r.outcome == Imported && r.state.plants == [] && r.state.ledger == []
            && r.state.profile == s.profile && r.state.notes == s.notes
  {
    assert FromArray([]) == [];
  }

  const InitialPlantImage: string :=
    "https://images.unsplash.com/photo-1597055181300-e3633a207519?q=80&w=400&auto=format&fit=crop"
  const InitialPlantNotes: string := "Adora luz indireta e umidade."

  /** `INITIAL_PLANTS`, whose dates are the moment the page was loaded. */
  function InitialPlants(loadTime: Instant): (r: seq<Plant>)
    ensures |r| == 1 && r[0].id == "1"
    ensures r[0].wateringFrequency == 4 && r[0].fertilizationFrequency == 30
    ensures r[0].lastWatered == loadTime && r[0].lastFertilized == loadTime
  {
    [Plant("1", "Jiboia Dourada", "Epipremnum aureum", 4, 30, loadTime, loadTime,
           InitialPlantImage, InitialPlantNotes)]
  }

  /**
   * Reset, when confirmed, brings back the default registry and an empty
   * ledger; the notes and the profile are kept.
   */
  function Reset(s: AppState, confirmed: bool, loadTime: Instant): (r: AppState)
    ensures !confirmed ==> r == s
    ensures confirmed ==> r.plants == InitialPlants(loadTime) && r.ledger == []
    ensures r.profile == s.profile && r.notes == s.notes
  {
    if confirmed then AppState(InitialPlants(loadTime), [], s.profile, s.notes) else s
  }

  /**
   * Right after a confirmed reset, every generated task belongs to the default
   * plant and is completed exactly when it is overdue.  The default plant's
   * dates are the page's load time, so when the page was loaded today its
   * watering and its fertilization due today are both there and pending.
   */
  lemma ResetSchedule(s: AppState, loadTime: Instant, now: Instant)
    ensures var r := Reset(s, true, loadTime);
            var tasks := GenerateTasks(r.plants, r.ledger, now);
            && (forall t :: t in tasks ==> t.plantId == "1" && (t.completed <==> t.dueDay < Today(now)))
            && (DayOf(loadTime) == Today(now) ==>
                  exists t :: t in tasks && t.kind == Watering && t.dueDay == Today(now) && !t.completed)
            && (DayOf(loadTime) == Today(now) ==>
                  exists t :: t in tasks && t.kind == Fertilization && t.dueDay == Today(now) && !t.completed)
  {
    var r := Reset(s, true, loadTime);
    GeneratedTaskShape(r.plants, r.ledger, now);
    GenerateSound(r.plants, r.ledger, now);
    GenerateComplete(r.plants, r.ledger, now);
    if DayOf(loadTime) == Today(now) {
      assert Occurrence(r.plants[0], Watering, 0) == Today(now);
      assert ExpectedTask(r.plants[0], Watering, Today(now), r.ledger, Today(now)) in GenerateTasks(r.plants, r.ledger, now);
      assert Occurrence(r.plants[0], Fertilization, 0) == Today(now);
      assert ExpectedTask(r.plants[0], Fertilization, Today(now), r.ledger, Today(now)) in GenerateTasks(r.plants, r.ledger, now);
    }
  }
}
